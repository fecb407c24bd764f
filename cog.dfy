/**
 * The image cog: the destination table it keeps, the dispatch of one image
 * to a guild's channels, the periodic tick and the on-demand command.
 */
module Cog {
  import opened Wrappers
  import opened GuildKey
  import opened Selection
  import opened ImageFile
  import opened Dispatch
  import opened Registry

  /** How one tick of the image task ends. */
  datatype TickResult =
    | TickFailed(error: ImageError)                     // picking or loading the image raised
    | Ticked(filename: string, reports: seq<Report>)    // the image went to the entries, in order

  /**
   * The loop of the tick over the table's entries, in key order. A dispatch
   * that raises ends the tick; every other outcome moves on to the next guild.
   */
  function Fanout(p: Platform, order: seq<string>, m: Table, filename: string, data: seq<Byte>): (r: seq<Report>)
    requires forall i :: 0 <= i < |order| ==> order[i] in m
    ensures |r| <= |order|
    ensures r == [] <==> order == []
  {
    if order == [] then []
    else
      var d := DispatchKey(p, order[0], m[order[0]], filename, data);
      if Raises(d) then [d] else [d] + Fanout(p, order[1..], m, filename, data)
  }

  /**
   * The tick visits the entries in key order, one dispatch each, and stops
   * early only right after a dispatch that raised.
   */
  lemma {:induction false} FanoutShape(p: Platform, order: seq<string>, m: Table, filename: string, data: seq<Byte>)
    requires forall i :: 0 <= i < |order| ==> order[i] in m
    ensures var r := Fanout(p, order, m, filename, data);
      |r| <= |order|
      && (forall i :: 0 <= i < |r| ==> r[i] == DispatchKey(p, order[i], m[order[i]], filename, data))
      && (forall i :: 0 <= i < |r| - 1 ==> !Raises(r[i]))
      && (|r| < |order| ==> r != [] && Raises(r[|r| - 1]))
  {
    if order != [] {
      FanoutShape(p, order[1..], m, filename, data);
    }
  }

  /** One turn of the tick's loop: the first entry, then the rest unless its dispatch raised. */
  lemma FanoutCons(p: Platform, order: seq<string>, m: Table, filename: string, data: seq<Byte>)
    requires forall i :: 0 <= i < |order| ==> order[i] in m
    requires order != []
    ensures var d := DispatchKey(p, order[0], m[order[0]], filename, data);
      Fanout(p, order, m, filename, data)
      == if Raises(d) then [d] else [d] + Fanout(p, order[1..], m, filename, data)
  {
  }

  /** The tick's bookkeeping: the reports so far followed by the rest of the loop are the whole loop. */
  lemma FanoutAdvance(p: Platform, order: seq<string>, m: Table, i: nat, filename: string, data: seq<Byte>, done: seq<Report>)
    requires forall j :: 0 <= j < |order| ==> order[j] in m
    requires i < |order|
    requires done + Fanout(p, order[i..], m, filename, data) == Fanout(p, order, m, filename, data)
    ensures var d := DispatchKey(p, order[i], m[order[i]], filename, data);
      if Raises(d) then done + [d] == Fanout(p, order, m, filename, data)
      else (done + [d]) + Fanout(p, order[i + 1..], m, filename, data) == Fanout(p, order, m, filename, data)
  {
    FanoutCons(p, order[i..], m, filename, data);
    assert order[i..][1..] == order[i + 1..];
  }

  /** One tick: one image chosen and loaded, then sent out to every entry. */
  function TickOutcome(p: Platform, order: seq<string>, m: Table, dir: Directory, choice: nat): (r: TickResult)
    requires forall i :: 0 <= i < |order| ==> order[i] in m
    requires ValidChoice(dir.listing, choice)
    ensures r.TickFailed? <==> Select(dir, choice).Failure?
    ensures r.TickFailed? && Candidates(dir.listing) == [] ==> r.error == NoImages
    ensures r.Ticked? ==>
      r.filename in dir.listing && IsImageName(r.filename)
      && |r.reports| <= |order| && (r.reports == [] <==> order == [])
  {
    match Select(dir, choice)
    case Failure(e) => TickFailed(e)
    case Success((name, bytes)) => Ticked(name, Fanout(p, order, m, name, bytes))
  }

  /** Every send attempt of a tick carries the one chosen image: its name and all of its bytes. */
  lemma TickSendsOneImage(p: Platform, order: seq<string>, m: Table, dir: Directory, choice: nat)
    requires forall i :: 0 <= i < |order| ==> order[i] in m
    requires ValidChoice(dir.listing, choice)
    ensures TickOutcome(p, order, m, dir, choice).Ticked? ==>
      var name := TickOutcome(p, order, m, dir, choice).filename;
      var reports := TickOutcome(p, order, m, dir, choice).reports;
      name in dir.listing && IsImageName(name)
      && forall i, j ::
           (0 <= i < |reports| && reports[i].Dispatched? && 0 <= j < |reports[i].steps| && reports[i].steps[j].Tried?)
           ==> reports[i].steps[j].filename == name && Some(reports[i].steps[j].data) == dir.read(name)
  {
    var t := TickOutcome(p, order, m, dir, choice);
    if t.Ticked? {
      var (name, bytes) := Select(dir, choice).value;
      FanoutShape(p, order, m, name, bytes);
      forall i, j | 0 <= i < |t.reports| && t.reports[i].Dispatched? && 0 <= j < |t.reports[i].steps|
          && t.reports[i].steps[j].Tried?
        ensures t.reports[i].steps[j].filename == name && t.reports[i].steps[j].data == bytes
      {
        var gid := ParseInt(order[i]).value;
        StepsShape(p, gid, m[order[i]], name, bytes);
      }
    }
  }

  /**
   * When no dispatch raises, a tick reaches every entry of the table: each
   * guild key gets exactly one report, and that report is the dispatch of the
   * one image to the key's channel list.
   */
  lemma TickReachesEveryEntry(p: Platform, order: seq<string>, m: Table, filename: string, data: seq<Byte>)
    requires forall i :: 0 <= i < |order| ==> order[i] in m
    requires KeyOrder(order, m)
    requires forall i :: 0 <= i < |order| ==> !Raises(DispatchKey(p, order[i], m[order[i]], filename, data))
    ensures |Fanout(p, order, m, filename, data)| == |order|
    ensures forall k :: k in m ==>
      exists i :: 0 <= i < |order| && order[i] == k
        && Fanout(p, order, m, filename, data)[i] == DispatchKey(p, k, m[k], filename, data)
  {
    var r := Fanout(p, order, m, filename, data);
    FanoutShape(p, order, m, filename, data);
    forall k | k in m
      ensures exists i :: 0 <= i < |order| && order[i] == k && r[i] == DispatchKey(p, k, m[k], filename, data)
    {
      assert k in set j | j in order;
      var i :| 0 <= i < |order| && order[i] == k;
      assert r[i] == DispatchKey(p, k, m[k], filename, data);
    }
  }

  /**
   * Guild "100" listing channels 1 and 2, both resolvable and both accepting:
   * the tick makes exactly two sends, in that order, with the same bytes.
   */
  lemma TwoChannelTick(p: Platform, filename: string, data: seq<Byte>)
    requires p.hasGuild(100) && p.hasChannel(100, 1) && p.hasChannel(100, 2)
    requires p.send(100, 1, filename, data) == Sent && p.send(100, 2, filename, data) == Sent
    ensures Fanout(p, ["100"], map["100" := [1, 2]], filename, data)
      == [Dispatched([Tried(1, filename, data, Sent), Tried(2, filename, data, Sent)])]
  {
    var m := map["100" := [1, 2]];
    var sent := [Tried(1, filename, data, Sent), Tried(2, filename, data, Sent)];
    assert Steps(p, 100, [2], filename, data) == [sent[1]] by {
      StepsCons(p, 100, [2], filename, data);
      assert [2][1..] == [];
    }
    assert Steps(p, 100, [1, 2], filename, data) == sent by {
      StepsCons(p, 100, [1, 2], filename, data);
      assert [1, 2][1..] == [2];
    }
    var d := Dispatched(sent);
    assert DispatchKey(p, "100", [1, 2], filename, data) == d by {
      HundredKey();
      RegisteredGuildIsReached(p, 100, [1, 2], filename, data);
    }
    FanoutCons(p, ["100"], m, filename, data);
    assert ["100"][1..] == [];
  }

  lemma HundredKey()
    ensures Str(100) == "100"
  {
    assert NatToDecimal(1) == "1";
    assert NatToDecimal(10) == "10";
  }

  /** The empty table: the tick reads one image and sends nothing. */
  lemma EmptyTableSendsNothing(p: Platform, order: seq<string>, m: Table, dir: Directory, choice: nat)
    requires m == map[] && KeyOrder(order, m)
    requires ValidChoice(dir.listing, choice)
    requires Select(dir, choice).Success?
    ensures TickOutcome(p, order, m, dir, choice) == Ticked(Select(dir, choice).value.0, [])
  {
  }

  class ImageCog {
    /** The chat platform the cog is attached to. */
    const bot: Platform
    /** `config_settings`: guild key to channel ids. */
    var settings: Table
    /** The keys of `settings` in the order the dict iterates them. */
    var order: seq<string>
    /** The table as last handed to `save_settings`. */
    var saved: Table

    ghost predicate Valid()
      reads this
    {
      KeyOrder(order, settings)
    }

    /** A cog over a table loaded from the settings store, keys in stored order. */
    constructor (bot: Platform, order: seq<string>, settings: Table)
      requires KeyOrder(order, settings)
      ensures Valid()
      ensures this.bot == bot && this.order == order && this.settings == settings && saved == settings
    {
      this.bot := bot;
      this.order := order;
      this.settings := settings;
      saved := settings;
    }

    /**
     * `send_image_to_channels`: parse the key, resolve the guild, then for each
     * channel id rewind the image, send it, and carry on past an unresolvable
     * channel or a PermissionError/HTTPException.
     */
    method SendImageToChannels(image: File, guildKey: string, channelIds: seq<int>) returns (report: Report)
      modifies image
      ensures report == DispatchKey(bot, guildKey, channelIds, image.path, image.content)
      ensures report.Dispatched? && Attempted(report.steps) != [] ==> image.pos == |image.content|
      ensures !(report.Dispatched? && Attempted(report.steps) != []) ==> image.pos == old(image.pos)
    {
      var parsed := ParseInt(guildKey);
      if parsed.None? {
        return InvalidGuildKey;
      }
      var gid := parsed.value;
      if !bot.hasGuild(gid) {
        return GuildMissing;
      }
      var steps := SendToEach(image, gid, channelIds);
      report := Dispatched(steps);
    }

    /** The loop of `send_image_to_channels` over the channel ids of a resolved guild. */
    method SendToEach(image: File, gid: int, channelIds: seq<int>) returns (steps: seq<Step>)
      modifies image
      ensures steps == Steps(bot, gid, channelIds, image.path, image.content)
      ensures image.pos == if Attempted(steps) == [] then old(image.pos) else |image.content|
    {
      steps := [];
      var i := 0;
      while i < |channelIds|
        invariant 0 <= i <= |channelIds|
        invariant steps + Steps(bot, gid, channelIds[i..], image.path, image.content)
                  == Steps(bot, gid, channelIds, image.path, image.content)
        invariant image.pos == if Attempted(steps) == [] then old(image.pos) else |image.content|
      {
        var channelId := channelIds[i];
        StepsAdvance(bot, gid, channelIds, i, image.path, image.content, steps);
        if !bot.hasChannel(gid, channelId) {
          AttemptedAppend(steps, Skipped(channelId));
          steps := steps + [Skipped(channelId)];
        } else {
          image.Seek(0);
          var data := image.Read();
          assert data == image.content;
          var status := bot.send(gid, channelId, image.path, data);
          AttemptedAppend(steps, Tried(channelId, image.path, data, status));
          steps := steps + [Tried(channelId, image.path, data, status)];
          if status == Crashed {
            // the exception leaves the loop and the method
            return;
          }
        }
        i := i + 1;
      }
    }

    /** `add-channel`: register the named channel, or the one the command came from. */
    method AddChannel(guildId: int, named: Option<int>, origin: int)
      requires Valid()
      modifies this
      ensures Valid()
      ensures settings == AddEntry(old(settings), Str(guildId), TargetChannel(named, origin))
      ensures order == if Str(guildId) in old(settings) then old(order) else old(order) + [Str(guildId)]
      ensures saved == settings
      ensures old(DistinctChannels(settings)) ==> DistinctChannels(settings)
    {
      var key := Str(guildId);
      var channelId := TargetChannel(named, origin);
      ghost var before := settings;
      if key !in settings {
        KeyOrderExtends(order, settings, key, []);
        settings := settings[key := []];
        order := order + [key];
      }
      if channelId !in settings[key] {
        KeyOrderExtends(order, settings, key, settings[key] + [channelId]);
        settings := settings[key := settings[key] + [channelId]];
      }
      assert settings == AddEntry(before, key, channelId);
      saved := settings;
      if DistinctChannels(before) {
        AddKeepsDistinct(before, key, channelId);
      }
    }

    /** `remove-channel`: unregister the named channel, or the one the command came from. */
    method RemoveChannel(guildId: int, named: Option<int>, origin: int)
      requires Valid()
      modifies this
      ensures Valid()
      ensures settings == RemoveEntry(old(settings), Str(guildId), TargetChannel(named, origin))
      ensures order == if Str(guildId) in old(settings) then old(order) else old(order) + [Str(guildId)]
      ensures saved == settings
      ensures old(DistinctChannels(settings)) ==>
        DistinctChannels(settings) && TargetChannel(named, origin) !in settings[Str(guildId)]
    {
      var key := Str(guildId);
      var channelId := TargetChannel(named, origin);
      if key !in settings {
        KeyOrderExtends(order, settings, key, []);
        settings := settings[key := []];
        order := order + [key];
      } else {
        // list.remove raises ValueError when the channel is absent; it is swallowed
        KeyOrderExtends(order, settings, key, RemoveFirst(settings[key], channelId));
        settings := settings[key := RemoveFirst(settings[key], channelId)];
      }
      saved := settings;
      if old(DistinctChannels(settings)) {
        RemoveKeepsDistinct(old(settings), key, channelId);
      }
    }

    /** `image_task`: one image, sent to every entry of the table in key order. */
    method ImageTask(dir: Directory, choice: nat) returns (r: TickResult)
      requires Valid()
      requires ValidChoice(dir.listing, choice)
      ensures r == TickOutcome(bot, order, settings, dir, choice)
    {
      var picked := RandomImage(dir, choice);
      if picked.Failure? {
        return TickFailed(picked.error);
      }
      var image := picked.value;
      var reports := SendToEntries(image);
      r := Ticked(image.path, reports);
    }

    /** The loop of `image_task` over the table's entries, in key order. */
    method SendToEntries(image: File) returns (reports: seq<Report>)
      requires Valid()
      modifies image
      ensures reports == Fanout(bot, order, settings, image.path, image.content)
    {
      reports := [];
      var i := 0;
      while i < |order|
        invariant 0 <= i <= |order|
        invariant reports + Fanout(bot, order[i..], settings, image.path, image.content)
                  == Fanout(bot, order, settings, image.path, image.content)
      {
        var key := order[i];
        FanoutAdvance(bot, order, settings, i, image.path, image.content, reports);
        var report := SendImageToChannels(image, key, settings[key]);
        reports := reports + [report];
        if Raises(report) {
          return;
        }
        i := i + 1;
      }
    }

    /**
     * The `random` command: one image, sent to the channel the command came
     * from, in the guild it came from (the key `str(guild_id)` parses back to it).
     */
    method RandomCommand(guildId: int, channelId: int, dir: Directory, choice: nat)
      returns (r: Result<Report, ImageError>)
      requires ValidChoice(dir.listing, choice)
      ensures Select(dir, choice).Failure? ==> r == Failure(Select(dir, choice).error)
      ensures Select(dir, choice).Success? ==>
        r == Success(DispatchTo(bot, guildId, [channelId], Select(dir, choice).value.0, Select(dir, choice).value.1))
    {
      var picked := RandomImage(dir, choice);
      if picked.Failure? {
        return Failure(picked.error);
      }
      var report := SendImageToChannels(picked.value, Str(guildId), [channelId]);
      RegisteredGuildIsReached(bot, guildId, [channelId], picked.value.path, picked.value.content);
      r := Success(report);
    }
  }

  /** The loop's bookkeeping: the steps so far followed by the rest of the loop are the whole loop. */
  lemma StepsAdvance(p: Platform, gid: int, channels: seq<int>, i: nat, filename: string, data: seq<Byte>, done: seq<Step>)
    requires i < |channels|
    requires done + Steps(p, gid, channels[i..], filename, data) == Steps(p, gid, channels, filename, data)
    ensures var s := StepFor(p, gid, channels[i], filename, data);
      if IsCrash(s) then done + [s] == Steps(p, gid, channels, filename, data)
      else (done + [s]) + Steps(p, gid, channels[i + 1..], filename, data) == Steps(p, gid, channels, filename, data)
  {
    StepsCons(p, gid, channels[i..], filename, data);
    assert channels[i..][1..] == channels[i + 1..];
  }

  lemma AttemptedAppend(steps: seq<Step>, s: Step)
    ensures Attempted(steps + [s]) == Attempted(steps) + (if s.Tried? then [s.channel] else [])
  {
    if steps != [] {
      assert (steps + [s])[1..] == steps[1..] + [s];
      AttemptedAppend(steps[1..], s);
    }
  }
}
