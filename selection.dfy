/**
 * Candidate images: the names directly under the image directory that match
 * one of the glob patterns of IMAGE_TYPES, collected pattern by pattern, and
 * the pick of one of them.
 */
module Selection {
  import opened Wrappers

  /** The patterns globbed, in the order their matches are concatenated. */
  const ImageTypes: seq<string> := ["*.png", "*.jpg", "*.jpeg", "*.webp", "*.gif"]

  datatype ImageError =
    | NoImages                 // random.choice on an empty list (IndexError)
    | Unreadable(name: string) // opening or reading the chosen file failed (OSError)

  predicate EndsWith(name: string, suffix: string)
  {
    |suffix| <= |name| && name[|name| - |suffix|..] == suffix
  }

  /**
   * Glob matching for the patterns IMAGE_TYPES uses: a leading `*` matches any
   * prefix, the empty one included, and the rest must match literally; a
   * pattern without a leading `*` matches only the name it spells.
   */
  predicate GlobMatch(pattern: string, name: string)
  {
    if |pattern| >= 1 && pattern[0] == '*' then EndsWith(name, pattern[1..]) else name == pattern
  }

  /** A name carries one of the recognised extensions. */
  predicate IsImageName(name: string)
  {
    EndsWith(name, ".png") || EndsWith(name, ".jpg") || EndsWith(name, ".jpeg")
    || EndsWith(name, ".webp") || EndsWith(name, ".gif")
  }

  /** `path.glob(pattern)`: the matching names, in listing order. */
  function Glob(listing: seq<string>, pattern: string): (r: seq<string>)
    ensures forall i :: 0 <= i < |r| ==> GlobMatch(pattern, r[i])
  {
    if listing == [] then []
    else
      var rest := Glob(listing[1..], pattern);
      if GlobMatch(pattern, listing[0]) then [listing[0]] + rest else rest
  }

  /** Glob keeps every matching name exactly as often as it is listed and drops the rest. */
  lemma {:induction false} GlobCount(listing: seq<string>, pattern: string, x: string)
    ensures multiset(Glob(listing, pattern))[x] == if GlobMatch(pattern, x) then multiset(listing)[x] else 0
  {
    if listing != [] {
      GlobCount(listing[1..], pattern, x);
      assert listing == [listing[0]] + listing[1..];
      assert multiset(listing) == multiset{listing[0]} + multiset(listing[1..]);
    }
  }

  /** The concatenation of the glob results of every pattern, in pattern order. */
  function Matches(listing: seq<string>, patterns: seq<string>): seq<string>
  {
    if patterns == [] then []
    else Matches(listing, patterns[..|patterns| - 1]) + Glob(listing, patterns[|patterns| - 1])
  }

  /** How many of the patterns match a name. */
  function MatchCount(patterns: seq<string>, name: string): nat
  {
    if patterns == [] then 0
    else MatchCount(patterns[..|patterns| - 1], name) + (if GlobMatch(patterns[|patterns| - 1], name) then 1 else 0)
  }

  /** The list `random_image` chooses from. */
  function Candidates(listing: seq<string>): (r: seq<string>)
    ensures forall x :: x in r ==> x in listing && IsImageName(x)
  {
    MatchesAreImages(listing);
    Matches(listing, ImageTypes)
  }

  lemma MatchesAreImages(listing: seq<string>)
    ensures forall x :: x in Matches(listing, ImageTypes) ==> x in listing && IsImageName(x)
  {
    forall x | x in Matches(listing, ImageTypes)
      ensures x in listing && IsImageName(x)
    {
      MatchesCount(listing, ImageTypes, x);
      ImageTypesExclusive(x);
    }
  }

  /** The caller-supplied stand-in for `random.choice` is a valid index whenever there is something to choose. */
  predicate ValidChoice(listing: seq<string>, choice: nat)
  {
    Candidates(listing) == [] || choice < |Candidates(listing)|
  }

  lemma {:induction false} MatchesCount(listing: seq<string>, patterns: seq<string>, x: string)
    ensures multiset(Matches(listing, patterns))[x] == MatchCount(patterns, x) * multiset(listing)[x]
  {
    if patterns != [] {
      var init, last := patterns[..|patterns| - 1], patterns[|patterns| - 1];
      MatchesCount(listing, init, x);
      var m, g := Matches(listing, init), Glob(listing, last);
      assert multiset(Matches(listing, patterns)) == multiset(m) + multiset(g);
      var c, k := MatchCount(init, x), multiset(listing)[x];
      GlobCount(listing, last, x);
      if GlobMatch(last, x) {
        MultiplySuccessor(c, k);
      }
    }
  }

  lemma MultiplySuccessor(c: nat, k: nat)
    ensures (c + 1) * k == c * k + k
  {
  }

  /** Two suffixes that end the same name agree on their common tail. */
  lemma SuffixesAgree(name: string, a: string, b: string, j: nat)
    requires EndsWith(name, a) && EndsWith(name, b)
    requires 1 <= j <= |a| && j <= |b|
    ensures a[|a| - j] == b[|b| - j]
  {
    assert a[|a| - j] == name[|name| - j];
    assert b[|b| - j] == name[|name| - j];
  }

  /** The count of matching patterns, spelled out for the five patterns of IMAGE_TYPES. */
  lemma MatchCountOfImageTypes(name: string)
    ensures MatchCount(ImageTypes, name) ==
      (if EndsWith(name, ".png") then 1 else 0) + (if EndsWith(name, ".jpg") then 1 else 0)
      + (if EndsWith(name, ".jpeg") then 1 else 0) + (if EndsWith(name, ".webp") then 1 else 0)
      + (if EndsWith(name, ".gif") then 1 else 0)
  {
    var b0 := if EndsWith(name, ".png") then 1 else 0;
    var b1 := if EndsWith(name, ".jpg") then 1 else 0;
    var b2 := if EndsWith(name, ".jpeg") then 1 else 0;
    var b3 := if EndsWith(name, ".webp") then 1 else 0;
    assert ImageTypes[..1][..0] == [] && ImageTypes[..1][0][1..] == ".png";
    assert MatchCount(ImageTypes[..1], name) == b0;
    assert ImageTypes[..2][..1] == ImageTypes[..1] && ImageTypes[..2][1][1..] == ".jpg";
    assert MatchCount(ImageTypes[..2], name) == b0 + b1;
    assert ImageTypes[..3][..2] == ImageTypes[..2] && ImageTypes[..3][2][1..] == ".jpeg";
    assert MatchCount(ImageTypes[..3], name) == b0 + b1 + b2;
    assert ImageTypes[..4][..3] == ImageTypes[..3] && ImageTypes[..4][3][1..] == ".webp";
    assert MatchCount(ImageTypes[..4], name) == b0 + b1 + b2 + b3;
    assert ImageTypes[..4] == ImageTypes[..|ImageTypes| - 1] && ImageTypes[4][1..] == ".gif";
  }

  /** No name ends with two different extensions of IMAGE_TYPES. */
  lemma ExtensionsExclusive(name: string, a: string, b: string)
    requires a in [".png", ".jpg", ".jpeg", ".webp", ".gif"]
    requires b in [".png", ".jpg", ".jpeg", ".webp", ".gif"]
    requires EndsWith(name, a) && EndsWith(name, b)
    ensures a == b
  {
    // Any two of the suffixes differ in one of their last two characters.
    SuffixesAgree(name, a, b, 1);
    SuffixesAgree(name, a, b, 2);
  }

  /** At most one pattern of IMAGE_TYPES matches a name, and one does exactly for image names. */
  lemma ImageTypesExclusive(name: string)
    ensures MatchCount(ImageTypes, name) == if IsImageName(name) then 1 else 0
  {
    MatchCountOfImageTypes(name);
    var png, jpg, jpeg, webp, gif := ".png", ".jpg", ".jpeg", ".webp", ".gif";
    if EndsWith(name, png) {
      if EndsWith(name, jpg) { ExtensionsExclusive(name, png, jpg); }
      if EndsWith(name, jpeg) { ExtensionsExclusive(name, png, jpeg); }
      if EndsWith(name, webp) { ExtensionsExclusive(name, png, webp); }
      if EndsWith(name, gif) { ExtensionsExclusive(name, png, gif); }
    } else if EndsWith(name, jpg) {
      if EndsWith(name, jpeg) { ExtensionsExclusive(name, jpg, jpeg); }
      if EndsWith(name, webp) { ExtensionsExclusive(name, jpg, webp); }
      if EndsWith(name, gif) { ExtensionsExclusive(name, jpg, gif); }
    } else if EndsWith(name, jpeg) {
      if EndsWith(name, webp) { ExtensionsExclusive(name, jpeg, webp); }
      if EndsWith(name, gif) { ExtensionsExclusive(name, jpeg, gif); }
    } else if EndsWith(name, webp) {
      if EndsWith(name, gif) { ExtensionsExclusive(name, webp, gif); }
    }
  }

  /**
   * Every image file of the directory is a candidate exactly as often as it is
   * listed, and nothing else is: the pick is over the union of all extensions,
   * with no file counted twice.
   */
  lemma CandidatesCount(listing: seq<string>, x: string)
    ensures multiset(Candidates(listing))[x] == if IsImageName(x) then multiset(listing)[x] else 0
  {
    MatchesCount(listing, ImageTypes, x);
    ImageTypesExclusive(x);
  }

  lemma CandidateMembership(listing: seq<string>, x: string)
    ensures x in Candidates(listing) <==> x in listing && IsImageName(x)
  {
    CandidatesCount(listing, x);
  }

  /** `random.choice(images)`, the random index supplied by the caller. */
  function Pick(images: seq<string>, choice: nat): (r: Result<string, ImageError>)
    requires images == [] || choice < |images|
    ensures r.Success? <==> images != []
    ensures r.Success? ==> r.value in images
    ensures r.Failure? ==> r.error == NoImages
    ensures images != [] ==> r == Success(images[choice])
  {
    if images == [] then Failure(NoImages) else Success(images[choice])
  }

  /** The indices at which `random.choice` lands on the name `x`. */
  function ChoicesFor(images: seq<string>, x: string): set<nat>
  {
    set i: nat | i < |images| && images[i] == x
  }

  /** Appending one name adds its index to the choices for that name and to no other. */
  lemma ChoicesSnoc(front: seq<string>, last: string, x: string)
    ensures ChoicesFor(front + [last], x) == ChoicesFor(front, x) + (if last == x then {|front|} else {})
  {
    var images := front + [last];
    forall i: nat | i < |front|
      ensures images[i] == front[i]
    {
    }
  }

  /** A name occupies as many indices of a list as it has copies in it. */
  lemma {:induction false} ChoicesCount(images: seq<string>, x: string)
    ensures |ChoicesFor(images, x)| == multiset(images)[x]
    decreases |images|
  {
    if images == [] {
      assert ChoicesFor(images, x) == {};
    } else {
      var front, last := images[..|images| - 1], images[|images| - 1];
      assert images == front + [last];
      ChoicesCount(front, x);
      ChoicesSnoc(front, last, x);
      assert |front| !in ChoicesFor(front, x);
    }
  }

  /**
   * Every listed image is reachable by the random pick: exactly as many valid
   * indices choose it as the listing holds copies of it, and each of them does.
   */
  lemma ChoicesOfImage(listing: seq<string>, x: string)
    requires x in listing && IsImageName(x)
    ensures |ChoicesFor(Candidates(listing), x)| == multiset(listing)[x] > 0
    ensures forall i :: i in ChoicesFor(Candidates(listing), x) ==>
      ValidChoice(listing, i) && Pick(Candidates(listing), i) == Success(x)
  {
    ChoicesCount(Candidates(listing), x);
    CandidatesCount(listing, x);
  }

  /** The loop of `random_image` that extends `images` with the matches of each pattern. */
  method CollectImages(listing: seq<string>) returns (images: seq<string>)
    ensures images == Candidates(listing)
  {
    images := [];
    for i := 0 to |ImageTypes|
      invariant images == Matches(listing, ImageTypes[..i])
    {
      images := images + Glob(listing, ImageTypes[i]);
      assert ImageTypes[..i + 1][..i] == ImageTypes[..i];
    }
    assert ImageTypes[..|ImageTypes|] == ImageTypes;
  }
}
