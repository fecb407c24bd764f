/**
 * What `send_image_to_channels` does with one image, one guild key and a
 * list of channel ids, as functions of an abstract chat platform.
 */
module Dispatch {
  import opened Wrappers
  import opened GuildKey
  import opened ImageFile

  /** How one `channel.send` ends. */
  datatype SendStatus =
    | Sent
    | PermissionDenied  // PermissionError: logged, the loop goes on
    | HttpFailure       // discord.HTTPException: logged, the loop goes on
    | Crashed           // any other exception: it propagates out of the dispatch

  /**
   * The chat platform as the dispatcher sees it: which guild ids resolve
   * (`bot.get_guild`), which channel ids resolve within a guild
   * (`guild.get_channel`), and how a send of a named file with given bytes ends.
   */
  datatype Platform = Platform(
    hasGuild: int -> bool,
    hasChannel: (int, int) -> bool,
    send: (int, int, string, seq<Byte>) -> SendStatus)

  /** What happened for one channel id: skipped as unresolvable, or a send attempted with these bytes. */
  datatype Step =
    | Skipped(channel: int)
    | Tried(channel: int, filename: string, data: seq<Byte>, status: SendStatus)

  /** The whole of one dispatch call. */
  datatype Report =
    | InvalidGuildKey          // int(guild_id) raised ValueError
    | GuildMissing             // the guild did not resolve: nothing was sent
    | Dispatched(steps: seq<Step>)

  predicate IsCrash(s: Step) { s.Tried? && s.status == Crashed }

  /** What the loop does for one channel id, given the file name and the bytes it sends. */
  function StepFor(p: Platform, gid: int, channel: int, filename: string, data: seq<Byte>): (r: Step)
    ensures r.channel == channel
    ensures r.Tried? <==> p.hasChannel(gid, channel)
    ensures r.Tried? ==> r.filename == filename && r.data == data && r.status == p.send(gid, channel, filename, data)
  {
    if p.hasChannel(gid, channel) then Tried(channel, filename, data, p.send(gid, channel, filename, data))
    else Skipped(channel)
  }

  /**
   * The loop over the channel ids of a resolved guild. An unresolvable channel
   * and a send that fails with PermissionError or HTTPException are passed
   * over; only an exception of any other kind ends the loop.
   */
  function Steps(p: Platform, gid: int, channels: seq<int>, filename: string, data: seq<Byte>): (r: seq<Step>)
    ensures |r| <= |channels|
    ensures r == [] <==> channels == []
  {
    if channels == [] then []
    else
      var s := StepFor(p, gid, channels[0], filename, data);
      if IsCrash(s) then [s] else [s] + Steps(p, gid, channels[1..], filename, data)
  }

  /**
   * The loop visits the channel ids in order, one step each, and stops early
   * only right after a send that raised.
   */
  lemma {:induction false} StepsShape(p: Platform, gid: int, channels: seq<int>, filename: string, data: seq<Byte>)
    ensures var r := Steps(p, gid, channels, filename, data);
      |r| <= |channels|
      && (forall i :: 0 <= i < |r| ==> r[i] == StepFor(p, gid, channels[i], filename, data))
      && (forall i :: 0 <= i < |r| - 1 ==> !IsCrash(r[i]))
      && (|r| < |channels| ==> r != [] && IsCrash(r[|r| - 1]))
  {
    if channels != [] {
      StepsShape(p, gid, channels[1..], filename, data);
    }
  }

  /** One turn of the loop: the first channel, then the rest unless the first send raised. */
  lemma StepsCons(p: Platform, gid: int, channels: seq<int>, filename: string, data: seq<Byte>)
    requires channels != []
    ensures var s := StepFor(p, gid, channels[0], filename, data);
      Steps(p, gid, channels, filename, data)
      == if IsCrash(s) then [s] else [s] + Steps(p, gid, channels[1..], filename, data)
  {
  }

  /** Dispatch to a guild id that has already been parsed. */
  function DispatchTo(p: Platform, gid: int, channels: seq<int>, filename: string, data: seq<Byte>): (r: Report)
    ensures !r.InvalidGuildKey?
    ensures r == GuildMissing <==> !p.hasGuild(gid)
    ensures r.Dispatched? ==> |r.steps| <= |channels| && (r.steps == [] <==> channels == [])
  {
    if !p.hasGuild(gid) then GuildMissing else Dispatched(Steps(p, gid, channels, filename, data))
  }

  /** `send_image_to_channels`: the guild key is parsed with `int` first. */
  function DispatchKey(p: Platform, key: string, channels: seq<int>, filename: string, data: seq<Byte>): (r: Report)
    ensures r == InvalidGuildKey <==> ParseInt(key).None?
    ensures r == GuildMissing <==> ParseInt(key).Some? && !p.hasGuild(ParseInt(key).value)
    ensures r.Dispatched? ==> |r.steps| <= |channels| && (r.steps == [] <==> channels == [])
  {
    match ParseInt(key)
    case None => InvalidGuildKey
    case Some(gid) => DispatchTo(p, gid, channels, filename, data)
  }

  /** The dispatch ended in an exception that escapes to its caller. */
  predicate Raises(r: Report)
  {
    r.InvalidGuildKey? || (r.Dispatched? && r.steps != [] && IsCrash(r.steps[|r.steps| - 1]))
  }

  /** The channel ids a send was attempted on, in order. */
  function Attempted(steps: seq<Step>): (r: seq<int>)
    ensures |r| <= |steps|
  {
    if steps == [] then []
    else (if steps[0].Tried? then [steps[0].channel] else []) + Attempted(steps[1..])
  }

  /** The channel ids of the list that resolve in the guild, in order. */
  function Resolvable(p: Platform, gid: int, channels: seq<int>): seq<int>
  {
    if channels == [] then []
    else (if p.hasChannel(gid, channels[0]) then [channels[0]] else []) + Resolvable(p, gid, channels[1..])
  }

  /** No send to a resolvable channel of the list raises past the handler. */
  predicate NoCrash(p: Platform, gid: int, channels: seq<int>, filename: string, data: seq<Byte>)
  {
    forall c :: c in channels && p.hasChannel(gid, c) ==> p.send(gid, c, filename, data) != Crashed
  }

  /**
   * A guild that does not resolve gets no send attempt; one that resolves gets
   * an attempt on exactly its resolvable channels, in input order, as long as
   * no send raises an exception other than the two handled ones.
   */
  lemma {:induction false} AttemptsAreResolvableChannels(p: Platform, gid: int, channels: seq<int>, filename: string, data: seq<Byte>)
    requires NoCrash(p, gid, channels, filename, data)
    ensures Attempted(Steps(p, gid, channels, filename, data)) == Resolvable(p, gid, channels)
    ensures |Steps(p, gid, channels, filename, data)| == |channels|
  {
    if channels != [] {
      assert channels[0] in channels;
      StepsShape(p, gid, channels, filename, data);
      assert NoCrash(p, gid, channels[1..], filename, data) by {
        forall c | c in channels[1..] ensures c in channels { }
      }
      AttemptsAreResolvableChannels(p, gid, channels[1..], filename, data);
      var r := Steps(p, gid, channels, filename, data);
      assert r[1..] == Steps(p, gid, channels[1..], filename, data);
    }
  }

  /**
   * One failure never stops later channels: two platforms that resolve the
   * same channels but answer sends differently (delivered, PermissionError,
   * HTTPException) see the very same send attempts.
   */
  lemma FailureIsolation(p: Platform, q: Platform, gid: int, channels: seq<int>, filename: string, data: seq<Byte>)
    requires forall c :: c in channels ==> p.hasChannel(gid, c) == q.hasChannel(gid, c)
    requires NoCrash(p, gid, channels, filename, data) && NoCrash(q, gid, channels, filename, data)
    ensures Attempted(Steps(p, gid, channels, filename, data)) == Attempted(Steps(q, gid, channels, filename, data))
  {
    AttemptsAreResolvableChannels(p, gid, channels, filename, data);
    AttemptsAreResolvableChannels(q, gid, channels, filename, data);
    ResolvableAgree(p, q, gid, channels);
  }

  lemma {:induction false} ResolvableAgree(p: Platform, q: Platform, gid: int, channels: seq<int>)
    requires forall c :: c in channels ==> p.hasChannel(gid, c) == q.hasChannel(gid, c)
    ensures Resolvable(p, gid, channels) == Resolvable(q, gid, channels)
  {
    if channels != [] {
      var c0 := channels[0];
      assert c0 in channels;
      assert p.hasChannel(gid, c0) == q.hasChannel(gid, c0);
      forall c | c in channels[1..] ensures p.hasChannel(gid, c) == q.hasChannel(gid, c) {
        assert c in channels;
      }
      ResolvableAgree(p, q, gid, channels[1..]);
    }
  }

  /** A guild that does not resolve receives nothing, whatever the channel list. */
  lemma MissingGuildGetsNothing(p: Platform, gid: int, channels: seq<int>, filename: string, data: seq<Byte>)
    requires !p.hasGuild(gid)
    ensures DispatchTo(p, gid, channels, filename, data) == GuildMissing
    ensures !Raises(DispatchTo(p, gid, channels, filename, data))
  {
  }

  /** Dispatch under the key `str(g)` that the registry stores reaches guild g itself. */
  lemma RegisteredGuildIsReached(p: Platform, g: int, channels: seq<int>, filename: string, data: seq<Byte>)
    ensures DispatchKey(p, Str(g), channels, filename, data) == DispatchTo(p, g, channels, filename, data)
  {
    KeyRoundTrip(g);
  }
}
