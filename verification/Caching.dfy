/** The tree a store keeps between exports, and what an export that finds it
    there answers from. */
module Caching {
  import opened Prelude
  import opened Text
  import opened Exports
  import Log
  import Store

  // ---------- the kept tree ----------

  /** The log file's size and modification time. */
  datatype Stamp = Stamp(size: nat, modified: Option<nat>)

  /** One export: the stamp it read, then a tree found or built. */
  datatype Export =
    | Stamped(stamp: Stamp)
    | Missed(stamp: Stamp)
    | Built(stamp: Stamp, tree: LogTree)
    | Answered(stamp: Stamp, tree: LogTree)
    | Unread

  /** The tree in the cache, under its stamp. `who` stored it, which the program
      does not record. */
  datatype Kept = Kept(who: nat, stamp: Stamp, tree: LogTree)

  datatype Cache = Cache(log: bytes, modified: Option<nat>, kept: Option<Kept>, exports: map<nat, Export>)

  /** What can happen next: another process appends, or an export takes a step. */
  datatype Event =
    | Append(line: bytes, when: Option<nat>)
    | ReadStamp(who: nat)
    | Look(who: nat)
    | ReadLog(who: nat)
    | Keep(who: nat)

  predicate Enabled(s: Cache, e: Event) {
    match e
    case Append(_, _) => true
    case ReadStamp(who) => who !in s.exports
    case Look(who) => who in s.exports && s.exports[who].Stamped?
    case ReadLog(who) => who in s.exports && s.exports[who].Missed?
    case Keep(who) => who in s.exports && s.exports[who].Built?
  }

  function TreeAt(sha: Sha, log: bytes): Option<LogTree> {
    match Log.Entries(log)
    case Err(_) => None
    case Ok(entries) => Some(TreeOver(sha, entries))
  }

  function Next(sha: Sha, s: Cache, e: Event): Cache
    requires Enabled(s, e)
  {
    match e
    case Append(line, when) => s.(log := s.log + line, modified := when)
    case ReadStamp(who) => s.(exports := s.exports[who := Stamped(Stamp(|s.log|, s.modified))])
    case Look(who) =>
      var stamp := s.exports[who].stamp;
      if s.kept.Some? && s.kept.value.stamp == stamp
      then s.(exports := s.exports[who := Answered(stamp, s.kept.value.tree)])
      else s.(exports := s.exports[who := Missed(stamp)])
    case ReadLog(who) =>
      (match TreeAt(sha, s.log)
       case None => s.(exports := s.exports[who := Unread])
       case Some(tree) => s.(exports := s.exports[who := Built(s.exports[who].stamp, tree)]))
    case Keep(who) =>
      var (stamp, tree) := (s.exports[who].stamp, s.exports[who].tree);
      s.(kept := Some(Kept(who, stamp, tree)), exports := s.exports[who := Answered(stamp, tree)])
  }

  /** The tree of the log as it stood at some length between two. */
  ghost predicate TreeBetween(sha: Sha, log: bytes, tree: LogTree, low: nat, high: nat) {
    exists n: nat :: low <= n <= high && n <= |log| && TreeAt(sha, log[..n]) == Some(tree)
  }

  ghost predicate Fresh(sha: Sha, log: bytes, x: Export) {
    match x
    case Unread => true
    case Stamped(stamp) => stamp.size <= |log|
    case Missed(stamp) => stamp.size <= |log|
    case Built(stamp, tree) => TreeBetween(sha, log, tree, stamp.size, |log|)
    case Answered(stamp, tree) => TreeBetween(sha, log, tree, stamp.size, |log|)
  }

  ghost predicate AllFresh(sha: Sha, s: Cache) {
    && (s.kept.Some? ==> TreeBetween(sha, s.log, s.kept.value.tree, s.kept.value.stamp.size, |s.log|))
    && forall who :: who in s.exports ==> Fresh(sha, s.log, s.exports[who])
  }

  lemma BetweenGrows(sha: Sha, log: bytes, line: bytes, tree: LogTree, low: nat, high: nat)
    requires TreeBetween(sha, log, tree, low, high)
    ensures TreeBetween(sha, log + line, tree, low, high + |line|)
    ensures TreeBetween(sha, log + line, tree, low, high)
  {
    hide TreeAt;
    var n: nat :| low <= n <= high && n <= |log| && TreeAt(sha, log[..n]) == Some(tree);
    assert (log + line)[..n] == log[..n];
  }

  lemma FreshGrows(sha: Sha, log: bytes, line: bytes, x: Export)
    requires Fresh(sha, log, x)
    ensures Fresh(sha, log + line, x)
  {
    hide TreeBetween;
    match x {
      case Built(stamp, tree) => BetweenGrows(sha, log, line, tree, stamp.size, |log|);
      case Answered(stamp, tree) => BetweenGrows(sha, log, line, tree, stamp.size, |log|);
      case _ =>
    }
  }

  lemma BuiltNow(sha: Sha, log: bytes, low: nat)
    requires low <= |log| && TreeAt(sha, log).Some?
    ensures TreeBetween(sha, log, TreeAt(sha, log).value, low, |log|)
  {
    hide TreeAt;
    assert log[..|log|] == log;
  }

  /** Whatever the interleaving, the tree an export answers from is of the log
      as it stood no earlier than the export's stamp and no later than now. */
  lemma StepKeepsFresh(sha: Sha, s: Cache, e: Event)
    requires AllFresh(sha, s) && Enabled(s, e)
    ensures AllFresh(sha, Next(sha, s, e))
  {
    hide TreeBetween, TreeAt;
    match e {
      case Append(line, _) =>
        if s.kept.Some? {
          BetweenGrows(sha, s.log, line, s.kept.value.tree, s.kept.value.stamp.size, |s.log|);
        }
        forall who | who in s.exports
          ensures Fresh(sha, s.log + line, s.exports[who])
        {
          FreshGrows(sha, s.log, line, s.exports[who]);
        }
      case ReadLog(who) =>
        assert Fresh(sha, s.log, s.exports[who]);
        if TreeAt(sha, s.log).Some? {
          BuiltNow(sha, s.log, s.exports[who].stamp.size);
        }
      case _ =>
    }
  }

  // ---------- one export at a time ----------

  predicate InFlight(x: Export) {
    x.Stamped? || x.Missed? || x.Built?
  }

  predicate Idle(s: Cache) {
    forall who :: who in s.exports ==> !InFlight(s.exports[who])
  }

  /** At most one export is under way, and a tree kept before its stamp was read
      is of no later log than its stamp's. */
  ghost predicate Alone(sha: Sha, s: Cache) {
    && (forall a, b :: a in s.exports && b in s.exports && InFlight(s.exports[a]) && InFlight(s.exports[b]) ==> a == b)
    && forall who :: who in s.exports && s.exports[who].Stamped? && s.kept.Some? ==>
         TreeBetween(sha, s.log, s.kept.value.tree, s.kept.value.stamp.size, s.exports[who].stamp.size)
  }

  lemma StepKeepsAlone(sha: Sha, s: Cache, e: Event)
    requires AllFresh(sha, s) && Alone(sha, s) && Enabled(s, e) && (e.ReadStamp? ==> Idle(s))
    ensures Alone(sha, Next(sha, s, e))
  {
    hide TreeBetween, TreeAt;
    if e.Append? && s.kept.Some? {
      forall who | who in s.exports && s.exports[who].Stamped?
        ensures TreeBetween(sha, s.log + e.line, s.kept.value.tree, s.kept.value.stamp.size, s.exports[who].stamp.size)
      {
        BetweenGrows(sha, s.log, e.line, s.kept.value.tree, s.kept.value.stamp.size, s.exports[who].stamp.size);
      }
    }
  }

  lemma ExactHit(sha: Sha, log: bytes, tree: LogTree, size: nat)
    requires TreeBetween(sha, log, tree, size, size)
    ensures size <= |log| && TreeAt(sha, log[..size]) == Some(tree)
  {
  }

  /** Where a run of events leads, when every one of them can happen. */
  function After(sha: Sha, s: Cache, events: seq<Event>): Option<Cache>
    decreases events
  {
    if events == [] then Some(s)
    else if Enabled(s, events[0]) then After(sha, Next(sha, s, events[0]), events[1..])
    else None
  }

  /** No export starts while another is under way. */
  ghost predicate Orderly(sha: Sha, s: Cache, events: seq<Event>)
    decreases events
  {
    events != [] && Enabled(s, events[0]) ==>
      (events[0].ReadStamp? ==> Idle(s)) && Orderly(sha, Next(sha, s, events[0]), events[1..])
  }

  lemma {:induction false} RunKeepsFresh(sha: Sha, s: Cache, events: seq<Event>)
    requires AllFresh(sha, s) && After(sha, s, events).Some?
    ensures AllFresh(sha, After(sha, s, events).value)
    decreases events
  {
    hide AllFresh, Next, Enabled;
    if events != [] {
      StepKeepsFresh(sha, s, events[0]);
      RunKeepsFresh(sha, Next(sha, s, events[0]), events[1..]);
    }
  }

  lemma {:induction false} RunKeepsAlone(sha: Sha, s: Cache, events: seq<Event>)
    requires AllFresh(sha, s) && Alone(sha, s) && After(sha, s, events).Some? && Orderly(sha, s, events)
    ensures Alone(sha, After(sha, s, events).value)
    decreases events
  {
    hide AllFresh, Alone, Next, Enabled, Idle;
    if events != [] {
      StepKeepsFresh(sha, s, events[0]);
      StepKeepsAlone(sha, s, events[0]);
      RunKeepsAlone(sha, Next(sha, s, events[0]), events[1..]);
    }
  }

  function Opened(log: bytes, modified: Option<nat>): Cache {
    Cache(log, modified, None, map[])
  }

  /** Whatever the interleaving, every answer is a tree over the log as it stood
      no earlier than the export's stamp and no later than now. */
  lemma EveryAnswerIsFresh(sha: Sha, log: bytes, modified: Option<nat>, events: seq<Event>, who: nat)
    requires After(sha, Opened(log, modified), events).Some?
    requires var end := After(sha, Opened(log, modified), events).value;
             who in end.exports && end.exports[who].Answered?
    ensures var end := After(sha, Opened(log, modified), events).value;
            TreeBetween(sha, end.log, end.exports[who].tree, end.exports[who].stamp.size, |end.log|)
  {
    hide TreeBetween, After;
    RunKeepsFresh(sha, Opened(log, modified), events);
    var end := After(sha, Opened(log, modified), events).value;
    assert Fresh(sha, end.log, end.exports[who]);
  }

  /** With one export at a time and any appends between its steps, a tree found
      in the cache is the tree over the log as it stood when the stamp was read. */
  lemma HitIsExact(sha: Sha, log: bytes, modified: Option<nat>, events: seq<Event>, who: nat)
    requires After(sha, Opened(log, modified), events).Some? && Orderly(sha, Opened(log, modified), events)
    requires var end := After(sha, Opened(log, modified), events).value;
             Enabled(end, Look(who)) && Next(sha, end, Look(who)).exports[who].Answered?
    ensures var end := After(sha, Opened(log, modified), events).value;
            var stamp := end.exports[who].stamp;
            && stamp.size <= |end.log|
            && TreeAt(sha, end.log[..stamp.size]) == Some(Next(sha, end, Look(who)).exports[who].tree)
  {
    hide TreeAt, TreeBetween, After, Orderly;
    RunKeepsAlone(sha, Opened(log, modified), events);
    var end := After(sha, Opened(log, modified), events).value;
    ExactHit(sha, end.log, end.kept.value.tree, end.exports[who].stamp.size);
  }

  // ---------- when a hit is of its stamp's log ----------

  /** Between reading its stamp and reading the log, the export saw an append. */
  ghost predicate Moved(events: seq<Event>, who: nat) {
    exists i, j, k :: 0 <= i < j < k < |events| && events[i] == ReadStamp(who) && events[j].Append?
                      && events[k] == ReadLog(who)
  }

  ghost predicate AppendedSince(events: seq<Event>, who: nat) {
    exists i, j :: 0 <= i < j < |events| && events[i] == ReadStamp(who) && events[j].Append?
  }

  lemma OneMoreEvent(past: seq<Event>, e: Event, who: nat)
    ensures Moved(past + [e], who) <==> Moved(past, who) || (e == ReadLog(who) && AppendedSince(past, who))
    ensures AppendedSince(past + [e], who) <==> AppendedSince(past, who) || (e.Append? && ReadStamp(who) in past)
  {
    hide Moved, AppendedSince;
    if Moved(past + [e], who) {
      MovedBefore(past, e, who);
    }
    if AppendedSince(past + [e], who) {
      SinceBefore(past, e, who);
    }
    MovedAfter(past, e, who);
    SinceAfter(past, e, who);
  }

  lemma MovedAfter(past: seq<Event>, e: Event, who: nat)
    ensures Moved(past, who) || (e == ReadLog(who) && AppendedSince(past, who)) ==> Moved(past + [e], who)
  {
    var more, n := past + [e], |past|;
    if Moved(past, who) {
      var i, j, k :| 0 <= i < j < k < n && past[i] == ReadStamp(who) && past[j].Append? && past[k] == ReadLog(who);
      assert more[i] == ReadStamp(who) && more[j].Append? && more[k] == ReadLog(who);
    } else if AppendedSince(past, who) {
      var i, j :| 0 <= i < j < n && past[i] == ReadStamp(who) && past[j].Append?;
      assert more[i] == ReadStamp(who) && more[j].Append? && more[n] == e;
    }
  }

  lemma SinceAfter(past: seq<Event>, e: Event, who: nat)
    ensures AppendedSince(past, who) || (e.Append? && ReadStamp(who) in past) ==> AppendedSince(past + [e], who)
  {
    var more, n := past + [e], |past|;
    if AppendedSince(past, who) {
      var i, j :| 0 <= i < j < n && past[i] == ReadStamp(who) && past[j].Append?;
      assert more[i] == ReadStamp(who) && more[j].Append?;
    } else if ReadStamp(who) in past {
      var i :| 0 <= i < n && past[i] == ReadStamp(who);
      assert more[i] == ReadStamp(who) && more[n] == e;
    }
  }

  lemma MovedBefore(past: seq<Event>, e: Event, who: nat)
    requires Moved(past + [e], who)
    ensures Moved(past, who) || (e == ReadLog(who) && AppendedSince(past, who))
  {
    var more, n := past + [e], |past|;
    var i, j, k :| 0 <= i < j < k < |more| && more[i] == ReadStamp(who) && more[j].Append? && more[k] == ReadLog(who);
    assert past[i] == ReadStamp(who) && past[j].Append?;
    if k < n {
      assert past[k] == ReadLog(who);
    }
  }

  lemma SinceBefore(past: seq<Event>, e: Event, who: nat)
    requires AppendedSince(past + [e], who)
    ensures AppendedSince(past, who) || (e.Append? && ReadStamp(who) in past)
  {
    var more, n := past + [e], |past|;
    var i, j :| 0 <= i < j < |more| && more[i] == ReadStamp(who) && more[j].Append?;
    assert past[i] == ReadStamp(who);
    if j < n {
      assert past[j].Append?;
    }
  }

  /** The length the log had after some of its appended entries. */
  ghost predicate Mark(log: bytes, es: seq<Log.Entry>, n: nat) {
    && n <= |Store.Appended(log, es)|
    && exists m :: 0 <= m <= |es| && n == |Store.Appended(log, es[..m])|
  }

  ghost predicate MarkOf(sha: Sha, log: bytes, es: seq<Log.Entry>, n: nat, tree: LogTree) {
    Mark(log, es, n) && TreeAt(sha, Store.Appended(log, es)[..n]) == Some(tree)
  }

  /** The tree is over the log at some mark, its stamp's exactly if nothing moved. */
  ghost predicate Noted(sha: Sha, log: bytes, es: seq<Log.Entry>, size: nat, tree: LogTree, moved: bool) {
    && Mark(log, es, size)
    && exists n: nat :: MarkOf(sha, log, es, n, tree) && (n == size <==> !moved)
  }

  ghost predicate StampNoted(log: bytes, es: seq<Log.Entry>, past: seq<Event>, who: nat, size: nat) {
    && ReadStamp(who) in past && ReadLog(who) !in past && Mark(log, es, size)
    && (size == |Store.Appended(log, es)| <==> !AppendedSince(past, who))
  }

  ghost predicate ExportNoted(sha: Sha, log: bytes, es: seq<Log.Entry>, past: seq<Event>, who: nat, x: Export) {
    match x
    case Stamped(stamp) => StampNoted(log, es, past, who, stamp.size)
    case Missed(stamp) => StampNoted(log, es, past, who, stamp.size)
    case Built(stamp, tree) => Noted(sha, log, es, stamp.size, tree, Moved(past, who))
    case _ => true
  }

  /** `es` were appended to `log` by the events of `past`. */
  ghost predicate AllNoted(sha: Sha, log: bytes, es: seq<Log.Entry>, past: seq<Event>, s: Cache) {
    && (forall x :: x in es ==> Log.Writable(x)) && s.log == Store.Appended(log, es)
    && (forall who :: who in s.exports ==> ExportNoted(sha, log, es, past, who, s.exports[who]))
    && (forall who :: who !in s.exports ==> ReadStamp(who) !in past && ReadLog(who) !in past)
    && (s.kept.Some? ==>
          && s.kept.value.who in s.exports && s.exports[s.kept.value.who].Answered?
          && Noted(sha, log, es, s.kept.value.stamp.size, s.kept.value.tree, Moved(past, s.kept.value.who)))
  }

  /** The line of some entry. */
  ghost predicate IsEntry(e: Event) {
    e.Append? ==> exists x :: Log.Writable(x) && e.line == Log.Line(x)
  }

  lemma MarkGrows(log: bytes, es: seq<Log.Entry>, x: Log.Entry, n: nat)
    requires Mark(log, es, n)
    ensures Mark(log, es + [x], n) && n < |Store.Appended(log, es + [x])|
    ensures Store.Appended(log, es + [x])[..n] == Store.Appended(log, es)[..n]
  {
    hide Log.Line;
    var more := es + [x];
    OneMore(log, es, x);
    var m :| 0 <= m <= |es| && n == |Store.Appended(log, es[..m])|;
    assert more[..m] == es[..m];
  }

  lemma OneMore(log: bytes, es: seq<Log.Entry>, x: Log.Entry)
    ensures Store.Appended(log, es + [x]) == Store.Appended(log, es) + Log.Line(x)
    ensures |Store.Appended(log, es + [x])| > |Store.Appended(log, es)|
  {
    hide Log.Material;
    Store.AppendedConcat(log, es, [x]);
    assert [x][1..] == [];
  }

  lemma MarkNow(log: bytes, es: seq<Log.Entry>)
    ensures Mark(log, es, |Store.Appended(log, es)|)
  {
    assert es[..|es|] == es;
  }

  lemma NotedGrows(sha: Sha, log: bytes, es: seq<Log.Entry>, x: Log.Entry, size: nat, tree: LogTree, moved: bool)
    requires Noted(sha, log, es, size, tree, moved)
    ensures Noted(sha, log, es + [x], size, tree, moved)
  {
    hide TreeAt, Mark, Log.Line;
    var n: nat :| MarkOf(sha, log, es, n, tree) && (n == size <==> !moved);
    MarkIn(log, es, n);
    MarkGrows(log, es, x, n);
    assert MarkOf(sha, log, es + [x], n, tree);
    MarkGrows(log, es, x, size);
  }

  lemma MarkIn(log: bytes, es: seq<Log.Entry>, n: nat)
    requires Mark(log, es, n)
    ensures n <= |Store.Appended(log, es)|
  {
  }

  /** What one more event leaves of what another export has noted. */
  lemma OtherNoted(sha: Sha, log: bytes, es: seq<Log.Entry>, past: seq<Event>, e: Event, who: nat, x: Export)
    requires ExportNoted(sha, log, es, past, who, x) && !e.Append? && e != ReadLog(who)
    ensures ExportNoted(sha, log, es, past + [e], who, x)
  {
    hide Moved, AppendedSince, Noted, Mark, Store.Appended;
    OneMoreEvent(past, e, who);
  }

  lemma NotedAppend(sha: Sha, log: bytes, es: seq<Log.Entry>, past: seq<Event>, e: Event, one: Log.Entry, who: nat,
      x: Export)
    requires ExportNoted(sha, log, es, past, who, x) && e.Append?
    ensures ExportNoted(sha, log, es + [one], past + [e], who, x)
  {
    hide Moved, AppendedSince, Noted, Mark, Store.Appended;
    OneMoreEvent(past, e, who);
    match x {
      case Stamped(stamp) => MarkGrows(log, es, one, stamp.size);
      case Missed(stamp) => MarkGrows(log, es, one, stamp.size);
      case Built(stamp, tree) => NotedGrows(sha, log, es, one, stamp.size, tree, Moved(past, who));
      case _ =>
    }
  }

  lemma AppendNoted(sha: Sha, log: bytes, es: seq<Log.Entry>, past: seq<Event>, s: Cache, e: Event)
      returns (more: seq<Log.Entry>)
    requires AllNoted(sha, log, es, past, s) && e.Append? && IsEntry(e)
    ensures AllNoted(sha, log, more, past + [e], Next(sha, s, e))
  {
    hide ExportNoted, Moved, Noted, Store.Appended, Log.Line, Log.Writable;
    var x :| Log.Writable(x) && e.line == Log.Line(x);
    more := es + [x];
    OneMore(log, es, x);
    forall who | who in s.exports
      ensures ExportNoted(sha, log, more, past + [e], who, s.exports[who])
    {
      NotedAppend(sha, log, es, past, e, x, who, s.exports[who]);
    }
    if s.kept.Some? {
      var k := s.kept.value;
      NotedGrows(sha, log, es, x, k.stamp.size, k.tree, Moved(past, k.who));
      OneMoreEvent(past, e, k.who);
    }
  }

  lemma StampedNow(sha: Sha, log: bytes, es: seq<Log.Entry>, past: seq<Event>, who: nat, stamp: Stamp)
    requires ReadStamp(who) !in past && ReadLog(who) !in past && stamp.size == |Store.Appended(log, es)|
    ensures ExportNoted(sha, log, es, past + [ReadStamp(who)], who, Stamped(stamp))
  {
    hide Mark, Store.Appended;
    MarkNow(log, es);
    OneMoreEvent(past, ReadStamp(who), who);
  }

  lemma ReadNow(sha: Sha, log: bytes, es: seq<Log.Entry>, past: seq<Event>, who: nat, stamp: Stamp, tree: LogTree)
    requires ExportNoted(sha, log, es, past, who, Missed(stamp))
    requires TreeAt(sha, Store.Appended(log, es)) == Some(tree)
    ensures ExportNoted(sha, log, es, past + [ReadLog(who)], who, Built(stamp, tree))
  {
    hide Mark, TreeAt, Store.Appended, AppendedSince;
    var now := Store.Appended(log, es);
    MarkNow(log, es);
    assert now[..|now|] == now;
    assert MarkOf(sha, log, es, |now|, tree);
    OneMoreEvent(past, ReadLog(who), who);
    assert !Moved(past, who);
  }

  /** What an export records as it goes on: nothing new, or its own step. */
  lemma StepNoted(sha: Sha, log: bytes, es: seq<Log.Entry>, past: seq<Event>, s: Cache, e: Event)
    requires AllNoted(sha, log, es, past, s) && Enabled(s, e) && !e.Append?
    ensures AllNoted(sha, log, es, past + [e], Next(sha, s, e))
  {
    hide ExportNoted, Moved, Noted, Store.Appended, Log.Writable, TreeAt;
    var after, me := Next(sha, s, e), e.who;
    assert after.log == s.log;
    forall who | who in s.exports && who != me
      ensures ExportNoted(sha, log, es, past + [e], who, s.exports[who])
    {
      OtherNoted(sha, log, es, past, e, who, s.exports[who]);
    }
    MineNoted(sha, log, es, past, s, e);
    if s.kept.Some? {
      OneMoreEvent(past, e, s.kept.value.who);
    }
    if e.Keep? {
      Stored(sha, log, es, past, e, me, s.exports[me]);
    }
  }

  lemma Stored(sha: Sha, log: bytes, es: seq<Log.Entry>, past: seq<Event>, e: Event, who: nat, x: Export)
    requires ExportNoted(sha, log, es, past, who, x) && x.Built? && e == Keep(who)
    ensures Noted(sha, log, es, x.stamp.size, x.tree, Moved(past + [e], who))
  {
    hide Moved, Noted;
    OneMoreEvent(past, e, who);
  }

  lemma MineNoted(sha: Sha, log: bytes, es: seq<Log.Entry>, past: seq<Event>, s: Cache, e: Event)
    requires AllNoted(sha, log, es, past, s) && Enabled(s, e) && !e.Append?
    ensures e.who in Next(sha, s, e).exports
    ensures ExportNoted(sha, log, es, past + [e], e.who, Next(sha, s, e).exports[e.who])
  {
    hide Moved, AppendedSince, Noted, Store.Appended, Log.Writable, TreeAt, Mark;
    var me := e.who;
    match e {
      case ReadStamp(_) =>
        StampedNow(sha, log, es, past, me, Stamp(|s.log|, s.modified));
      case ReadLog(_) =>
        if TreeAt(sha, s.log).Some? {
          ReadNow(sha, log, es, past, me, s.exports[me].stamp, TreeAt(sha, s.log).value);
        }
      case Look(_) =>
        OneMoreEvent(past, e, me);
        assert ExportNoted(sha, log, es, past, me, s.exports[me]);
      case Keep(_) =>
    }
  }

  lemma {:induction false} RunNoted(sha: Sha, log: bytes, es: seq<Log.Entry>, past: seq<Event>, s: Cache,
      events: seq<Event>) returns (all: seq<Log.Entry>)
    requires AllNoted(sha, log, es, past, s) && After(sha, s, events).Some?
    requires forall e :: e in events ==> IsEntry(e)
    ensures AllNoted(sha, log, all, past + events, After(sha, s, events).value)
    decreases events
  {
    hide AllNoted, Next, Enabled, IsEntry;
    all := es;
    if events == [] {
      assert past + events == past;
    } else {
      var e := events[0];
      assert past + events == (past + [e]) + events[1..];
      if e.Append? {
        all := AppendNoted(sha, log, es, past, s, e);
      } else {
        StepNoted(sha, log, es, past, s, e);
      }
      all := RunNoted(sha, log, all, past + [e], Next(sha, s, e), events[1..]);
    }
  }

  lemma MarkedEntries(log: bytes, es: seq<Log.Entry>, n: nat) returns (m: nat)
    requires Terminated(log) && Log.Entries(log).Ok? && (forall x :: x in es ==> Log.Writable(x)) && Mark(log, es, n)
    ensures m <= |es| && n == |Store.Appended(log, es[..m])|
    ensures Log.Entries(Store.Appended(log, es)[..n]) == Ok(Log.Entries(log).value + es[..m])
  {
    hide Log.Entries, Log.Writable, Store.Appended;
    m :| m <= |es| && n == |Store.Appended(log, es[..m])|;
    Store.AppendMany(log, es[..m]);
    Store.AppendedConcat(log, es[..m], es[m..]);
    assert es[..m] + es[m..] == es;
    Store.AppendedGrows(Store.Appended(log, es[..m]), es[m..]);
    assert Store.Appended(log, es)[..n] == Store.Appended(log, es[..m]);
  }

  /** Two marks with one tree are one mark. */
  lemma OneTree(sha: Sha, log: bytes, es: seq<Log.Entry>, a: nat, b: nat)
    requires Terminated(log) && Log.Entries(log).Ok? && (forall x :: x in es ==> Log.Writable(x))
    requires Mark(log, es, a) && Mark(log, es, b)
    requires TreeAt(sha, Store.Appended(log, es)[..a]) == TreeAt(sha, Store.Appended(log, es)[..b])
    ensures a == b
  {
    hide Log.Entries, Log.Writable, Store.Appended, Mark;
    MarkIn(log, es, a);
    MarkIn(log, es, b);
    var m := MarkedEntries(log, es, a);
    var n := MarkedEntries(log, es, b);
    OneReading(sha, Store.Appended(log, es)[..a], Store.Appended(log, es)[..b]);
    assert |Log.Entries(log).value + es[..m]| == |Log.Entries(log).value| + m;
    assert |Log.Entries(log).value + es[..n]| == |Log.Entries(log).value| + n;
  }

  lemma OneReading(sha: Sha, a: bytes, b: bytes)
    requires TreeAt(sha, a) == TreeAt(sha, b) && Log.Entries(a).Ok? && Log.Entries(b).Ok?
    ensures Log.Entries(a) == Log.Entries(b)
  {
    hide Log.Entries, Log.Leaves, Positions;
  }

  lemma NothingNoted(sha: Sha, log: bytes, modified: Option<nat>)
    ensures AllNoted(sha, log, [], [], Opened(log, modified))
  {
  }

  /** Over any run whose appends are entries, in any interleaving: a tree found in
      the cache is the tree over the log as it stood when the stamp was read if
      and only if the export that stored it saw no append between reading its own
      stamp and reading the log. */
  lemma HitExact(sha: Sha, log: bytes, modified: Option<nat>, events: seq<Event>, who: nat)
    requires Terminated(log) && Log.Entries(log).Ok? && forall e :: e in events ==> IsEntry(e)
    requires After(sha, Opened(log, modified), events).Some?
    requires var end := After(sha, Opened(log, modified), events).value;
             Enabled(end, Look(who)) && Next(sha, end, Look(who)).exports[who].Answered?
    ensures var end := After(sha, Opened(log, modified), events).value;
            var size := end.exports[who].stamp.size;
            && size <= |end.log|
            && (TreeAt(sha, end.log[..size]) == Some(Next(sha, end, Look(who)).exports[who].tree)
                <==> !Moved(events, end.kept.value.who))
  {
    hide TreeAt, After, Moved, Mark, Store.Appended, Log.Entries, Log.Writable, IsEntry, ExportNoted;
    NothingNoted(sha, log, modified);
    var es := RunNoted(sha, log, [], [], Opened(log, modified), events);
    assert [] + events == events;
    var end := After(sha, Opened(log, modified), events).value;
    var k := end.kept.value;
    var n: nat :| MarkOf(sha, log, es, n, k.tree) && (n == k.stamp.size <==> !Moved(events, k.who));
    MarkIn(log, es, k.stamp.size);
    MarkIn(log, es, n);
    if TreeAt(sha, end.log[..k.stamp.size]) == Some(k.tree) {
      OneTree(sha, log, es, n, k.stamp.size);
    }
  }

  /** Two exports at once: the first stamps, the second builds over a longer log
      under the same stamp, and the first then finds that longer tree. */
  lemma OverlapIsNotExact(sha: Sha, log: bytes, modified: Option<nat>, line: bytes, when: Option<nat>, tree: LogTree)
    requires TreeAt(sha, log + line) == Some(tree)
    ensures var end := After(sha, Opened(log, modified),
                             [ReadStamp(1), ReadStamp(2), Look(2), Append(line, when), ReadLog(2), Keep(2), Look(1)]);
            && end.Some? && 1 in end.value.exports
            && end.value.exports[1] == Answered(Stamp(|log|, modified), tree)
  {
    hide TreeAt;
    var stamp := Stamp(|log|, modified);
    var first, second := [ReadStamp(1), ReadStamp(2), Look(2)], [Append(line, when), ReadLog(2), Keep(2), Look(1)];
    var s3 := Cache(log, modified, None, map[1 := Stamped(stamp), 2 := Missed(stamp)]);
    BothStamped(sha, log, modified);
    AfterConcat(sha, Opened(log, modified), first, second);
    assert first + second == [ReadStamp(1), ReadStamp(2), Look(2), Append(line, when), ReadLog(2), Keep(2), Look(1)];
    AppendThenRead(sha, s3, line, when, tree, stamp);
    KeepThenLook(sha, Cache(log + line, when, None, s3.exports[2 := Built(stamp, tree)]), tree, stamp);
  }

  lemma {:induction false} AfterConcat(sha: Sha, s: Cache, a: seq<Event>, b: seq<Event>)
    requires After(sha, s, a).Some?
    ensures After(sha, s, a + b) == After(sha, After(sha, s, a).value, b)
    decreases a
  {
    hide Next, Enabled;
    if a == [] {
      assert a + b == b;
    } else {
      assert (a + b)[1..] == a[1..] + b;
      AfterConcat(sha, Next(sha, s, a[0]), a[1..], b);
    }
  }

  lemma BothStamped(sha: Sha, log: bytes, modified: Option<nat>)
    ensures var stamp := Stamp(|log|, modified);
            After(sha, Opened(log, modified), [ReadStamp(1), ReadStamp(2), Look(2)])
            == Some(Cache(log, modified, None, map[1 := Stamped(stamp), 2 := Missed(stamp)]))
  {
    var stamp, events := Stamp(|log|, modified), [ReadStamp(1), ReadStamp(2), Look(2)];
    var s1 := Cache(log, modified, None, map[1 := Stamped(stamp)]);
    var s2 := Cache(log, modified, None, map[1 := Stamped(stamp), 2 := Stamped(stamp)]);
    var s3 := Cache(log, modified, None, map[1 := Stamped(stamp), 2 := Missed(stamp)]);
    assert events[1..] == [ReadStamp(2), Look(2)] && events[2..] == [Look(2)];
    assert Next(sha, Opened(log, modified), ReadStamp(1)) == s1;
    assert Next(sha, s1, ReadStamp(2)) == s2;
    assert Next(sha, s2, Look(2)) == s3;
    assert After(sha, s3, []) == Some(s3);
    assert [Look(2)][1..] == [] && [ReadStamp(2), Look(2)][1..] == [Look(2)];
    assert After(sha, s2, [Look(2)]) == Some(s3);
    assert After(sha, s1, [ReadStamp(2), Look(2)]) == Some(s3);
  }

  lemma AppendThenRead(sha: Sha, s: Cache, line: bytes, when: Option<nat>, tree: LogTree, stamp: Stamp)
    requires 2 in s.exports && s.exports[2] == Missed(stamp) && TreeAt(sha, s.log + line) == Some(tree)
    ensures After(sha, s, [Append(line, when), ReadLog(2), Keep(2), Look(1)])
            == After(sha, Cache(s.log + line, when, s.kept, s.exports[2 := Built(stamp, tree)]), [Keep(2), Look(1)])
  {
    hide TreeAt;
    var events := [Append(line, when), ReadLog(2), Keep(2), Look(1)];
    assert events[1..][0] == ReadLog(2) && events[1..][1..] == [Keep(2), Look(1)];
  }

  lemma KeepThenLook(sha: Sha, s: Cache, tree: LogTree, stamp: Stamp)
    requires 1 in s.exports && s.exports[1] == Stamped(stamp) && 2 in s.exports && s.exports[2] == Built(stamp, tree)
    ensures var end := After(sha, s, [Keep(2), Look(1)]);
            end.Some? && 1 in end.value.exports && end.value.exports[1] == Answered(stamp, tree)
  {
    var events := [Keep(2), Look(1)];
    assert events[1..][0] == Look(1) && events[1..][1..] == [];
  }
}
