/**
 * The destination table `config_settings`: guild key to the list of channel
 * ids the periodic image goes to, and the updates `add-channel` and
 * `remove-channel` make to it.
 */
module Registry {
  import opened Wrappers

  type Table = map<string, seq<int>>

  predicate NoDuplicates(s: seq<int>)
  {
    forall i, j :: 0 <= i < j < |s| ==> s[i] != s[j]
  }

  /** No guild lists a channel twice. */
  predicate DistinctChannels(m: Table)
  {
    forall k :: k in m ==> NoDuplicates(m[k])
  }

  /** Python dict order: the keys of the table, each once, in insertion order. */
  predicate KeyOrder(order: seq<string>, m: Table)
  {
    (forall i, j :: 0 <= i < j < |order| ==> order[i] != order[j])
    && m.Keys == set k | k in order
  }

  /** The channel a command applies to: the one named, else the one it was issued in. */
  function TargetChannel(named: Option<int>, origin: int): int
  {
    match named
    case Some(c) => c
    case None => origin
  }

  /** `add-channel`: create the guild's list if missing, append the channel if absent. */
  function AddEntry(m: Table, key: string, c: int): (r: Table)
    ensures r.Keys == m.Keys + {key}
    ensures key in r && c in r[key]
    ensures forall k :: k in m && k != key ==> r[k] == m[k]
  {
    var l := if key in m then m[key] else [];
    m[key := if c in l then l else l + [c]]
  }

  /** Python's `list.remove` when the value is present; the list itself otherwise. */
  function RemoveFirst(s: seq<int>, c: int): (r: seq<int>)
    ensures c !in s ==> r == s
    ensures |r| == if c in s then |s| - 1 else |s|
  {
    if s == [] then []
    else if s[0] == c then s[1..]
    else [s[0]] + RemoveFirst(s[1..], c)
  }

  /** The position of the first occurrence of c in s. */
  function IndexOf(s: seq<int>, c: int): (i: nat)
    requires c in s
    ensures i < |s| && s[i] == c && c !in s[..i]
  {
    if s[0] == c then 0 else IndexOf(s[1..], c) + 1
  }

  /** RemoveFirst takes away one occurrence of the channel, if there is one, and nothing else. */
  lemma {:induction false} RemoveFirstCount(s: seq<int>, c: int)
    ensures multiset(RemoveFirst(s, c)) == multiset(s) - multiset{c}
  {
    if s != [] {
      assert s == [s[0]] + s[1..];
      RemoveFirstCount(s[1..], c);
    }
  }

  /** `remove-channel`: an unknown guild gets an empty list; a known one loses the first occurrence, if any. */
  function RemoveEntry(m: Table, key: string, c: int): (r: Table)
    ensures r.Keys == m.Keys + {key}
    ensures key in m && c !in m[key] ==> r == m
    ensures forall k :: k in m && k != key ==> r[k] == m[k]
  {
    if key !in m then m[key := []] else m[key := RemoveFirst(m[key], c)]
  }

  /** RemoveFirst deletes exactly the first occurrence and keeps the order of the rest. */
  lemma {:induction false} RemoveFirstAt(s: seq<int>, c: int)
    requires c in s
    ensures RemoveFirst(s, c) == s[..IndexOf(s, c)] + s[IndexOf(s, c) + 1..]
  {
    if s[0] != c {
      var t := s[1..];
      var i := IndexOf(t, c);
      RemoveFirstAt(t, c);
      assert IndexOf(s, c) == i + 1;
      calc {
        RemoveFirst(s, c);
        [s[0]] + RemoveFirst(t, c);
        [s[0]] + (t[..i] + t[i + 1..]);
        { assert [s[0]] + t[..i] == s[..i + 1]; assert t[i + 1..] == s[i + 2..]; }
        s[..i + 1] + s[i + 2..];
      }
    }
  }

  /** After adding, the guild is registered with the channel; existing entries keep their order; no other guild changes. */
  lemma AddRegisters(m: Table, key: string, c: int)
    ensures key in AddEntry(m, key, c) && c in AddEntry(m, key, c)[key]
    ensures key in m ==> AddEntry(m, key, c)[key][..|m[key]|] == m[key]
    ensures key in m && c !in m[key] ==> AddEntry(m, key, c)[key] == m[key] + [c]
    ensures key !in m ==> AddEntry(m, key, c)[key] == [c]
    ensures forall k :: k != key ==> (k in AddEntry(m, key, c) <==> k in m)
    ensures forall k :: k != key && k in m ==> AddEntry(m, key, c)[k] == m[k]
  {
  }

  /** Adding a channel already present leaves the table as it was. */
  lemma AddPresentIsNoOp(m: Table, key: string, c: int)
    requires key in m && c in m[key]
    ensures AddEntry(m, key, c) == m
  {
  }

  /** Adding twice is adding once. */
  lemma AddIdempotent(m: Table, key: string, c: int)
    ensures AddEntry(AddEntry(m, key, c), key, c) == AddEntry(m, key, c)
  {
    AddRegisters(m, key, c);
    AddPresentIsNoOp(AddEntry(m, key, c), key, c);
  }

  /** Adding keeps every guild's list free of duplicates. */
  lemma AddKeepsDistinct(m: Table, key: string, c: int)
    requires DistinctChannels(m)
    ensures DistinctChannels(AddEntry(m, key, c))
  {
    var r := AddEntry(m, key, c);
    forall k | k in r ensures NoDuplicates(r[k]) {
      if k == key && key in m && c !in m[key] {
        var l := m[key] + [c];
        forall i, j | 0 <= i < j < |l| ensures l[i] != l[j] {
          if j == |l| - 1 {
            assert l[i] in m[key];
          }
        }
      }
    }
  }

  /** On an unknown guild, removal raises nothing and leaves the guild mapped to the empty list. */
  lemma RemoveUnknownGuild(m: Table, key: string, c: int)
    requires key !in m
    ensures RemoveEntry(m, key, c) == m[key := []]
  {
  }

  /** Removing a channel the guild does not list changes nothing. */
  lemma RemoveAbsentIsNoOp(m: Table, key: string, c: int)
    requires key in m && c !in m[key]
    ensures RemoveEntry(m, key, c) == m
  {
  }

  /** With no duplicates, removal takes the channel out completely and keeps the list duplicate-free. */
  lemma RemoveMakesAbsent(s: seq<int>, c: int)
    requires NoDuplicates(s)
    ensures c !in RemoveFirst(s, c)
    ensures NoDuplicates(RemoveFirst(s, c))
  {
    if c in s {
      var i := IndexOf(s, c);
      RemoveFirstAt(s, c);
      var r := RemoveFirst(s, c);
      forall j | 0 <= j < |r| ensures r[j] != c && (j < i ==> r[j] == s[j]) && (j >= i ==> r[j] == s[j + 1]) {
        if j < i { assert r[j] == s[..i][j]; } else { assert r[j] == s[i + 1..][j - i]; }
      }
    }
  }

  /** Removing keeps every guild's list free of duplicates, and the removed channel is gone from its guild. */
  lemma RemoveKeepsDistinct(m: Table, key: string, c: int)
    requires DistinctChannels(m)
    ensures DistinctChannels(RemoveEntry(m, key, c))
    ensures c !in RemoveEntry(m, key, c)[key]
  {
    if key in m {
      RemoveMakesAbsent(m[key], c);
    }
  }

  /** Removal undoes the addition of a channel the guild did not list. */
  lemma {:induction false} RemoveUndoesAdd(m: Table, key: string, c: int)
    requires key in m && c !in m[key]
    ensures RemoveEntry(AddEntry(m, key, c), key, c) == m
  {
    RemoveFirstOfAppended(m[key], c);
  }

  lemma {:induction false} RemoveFirstOfAppended(s: seq<int>, c: int)
    requires c !in s
    ensures RemoveFirst(s + [c], c) == s
  {
    if s != [] {
      assert (s + [c])[1..] == s[1..] + [c];
      RemoveFirstOfAppended(s[1..], c);
    }
  }

  /** Registering a channel on a new guild and unregistering it leaves the guild with an empty list. */
  lemma AddThenRemoveOnNewGuild(m: Table, key: string, c: int)
    requires key !in m
    ensures RemoveEntry(AddEntry(m, key, c), key, c) == m[key := []]
  {
  }

  /** Both updates keep the key order in step with the table when a new key is appended. */
  lemma KeyOrderExtends(order: seq<string>, m: Table, key: string, l: seq<int>)
    requires KeyOrder(order, m)
    ensures key in m ==> KeyOrder(order, m[key := l])
    ensures key !in m ==> KeyOrder(order + [key], m[key := l])
  {
  }
}
