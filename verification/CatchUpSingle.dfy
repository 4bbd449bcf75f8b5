/** Reading one chat's dropped interval again (internal/client/sync.go, CatchUp). */
module CatchUpSingle {
  import opened Basics
  import opened CatchUpRoom
  import opened CatchUpFinish
  import opened CatchUpClient

  const MAX_PAGES := 100

  /** One SYNCMSG page; a failed one may itself report an unresolved gap. */
  datatype SyncReply = Refused(gap: bool) | Synced(logs: seq<Log>)

  datatype Scan = Rejected | Taken(events: seq<Log>, current: int)

  /** The events a page adds: logs after the position and at or below the target,
      in order. A log below the position, or an undecodable one, rejects it. */
  function ScanPage(logs: seq<Log>, current: int, target: int): Scan {
    if logs == [] then Taken([], current)
    else if logs[0].id < current then Rejected
    else if logs[0].id > target || logs[0].id == current then ScanPage(logs[1..], current, target)
    else if !logs[0].decodes then Rejected
    else match ScanPage(logs[1..], logs[0].id, target)
         case Taken(events, last) => Taken([logs[0]] + events, last)
         case Rejected => Rejected
  }

  lemma {:induction false} ScanIsWithin(logs: seq<Log>, current: int, target: int)
    requires current <= target && ScanPage(logs, current, target).Taken?
    ensures var scan := ScanPage(logs, current, target);
      && current <= scan.current <= target && Within(current, scan.events, scan.current)
      && (scan.events == [] <==> scan.current == current)
      && (scan.events != [] ==> scan.events[|scan.events| - 1].id == scan.current)
    decreases logs
  {
    if logs != [] {
      if logs[0].id > target || logs[0].id == current {
        ScanIsWithin(logs[1..], current, target);
      } else {
        ScanIsWithin(logs[1..], logs[0].id, target);
        var scan := ScanPage(logs, current, target);
        assert scan.events[1..] == ScanPage(logs[1..], logs[0].id, target).events;
      }
    }
  }

  // ---- What a page adds, log by log ----

  /** The first log of an identity in (current, target]. */
  ghost predicate Fresh(logs: seq<Log>, current: int, target: int, i: nat)
    requires i < |logs|
  {
    current < logs[i].id <= target && forall j :: 0 <= j < i ==> logs[j].id != logs[i].id
  }

  /** No log lies below the position or below an earlier log within the target. */
  ghost predicate Rises(logs: seq<Log>, current: int, target: int) {
    && (forall i :: 0 <= i < |logs| ==> current <= logs[i].id)
    && (forall i, j :: 0 <= j < i < |logs| && logs[j].id <= target ==> logs[j].id <= logs[i].id)
  }

  ghost predicate Readable(logs: seq<Log>, current: int, target: int) {
    forall i :: 0 <= i < |logs| && Fresh(logs, current, target, i) ==> logs[i].decodes
  }

  ghost predicate Adds(logs: seq<Log>, current: int, target: int, l: Log) {
    exists i :: 0 <= i < |logs| && Fresh(logs, current, target, i) && logs[i] == l
  }

  function Moved(log: Log, current: int, target: int): int { if log.id > target then current else log.id }

  /** A page is taken exactly when it rises and its fresh logs decode, and then
      adds exactly those. */
  lemma {:induction false} ScanIs(logs: seq<Log>, current: int, target: int)
    requires current <= target
    ensures var scan := ScanPage(logs, current, target);
      && (scan.Taken? <==> Rises(logs, current, target) && Readable(logs, current, target))
      && (scan.Taken? ==> forall l :: l in scan.events <==> Adds(logs, current, target, l))
    decreases logs
  {
    if logs != [] && logs[0].id >= current {
      var next := Moved(logs[0], current, target);
      ScanIs(logs[1..], next, target);
      RisesAfter(logs, current, target);
      if Rises(logs, current, target) {
        FreshAfter(logs, current, target);
        ReadableAfter(logs, current, target);
        forall l
          ensures Adds(logs, current, target, l) <==>
                  Adds(logs[1..], next, target, l) || (current < logs[0].id <= target && l == logs[0])
        {
          AddsAfter(logs, current, target, l);
        }
      }
    }
  }

  lemma RisesAfter(logs: seq<Log>, current: int, target: int)
    requires logs != [] && logs[0].id >= current
    ensures Rises(logs, current, target) <==> Rises(logs[1..], Moved(logs[0], current, target), target)
  {
    var rest, next := logs[1..], Moved(logs[0], current, target);
    if Rises(rest, next, target) {
      forall i | 0 <= i < |logs|
        ensures next <= logs[i].id || i == 0
      {
        if i > 0 { assert next <= rest[i - 1].id; }
      }
      forall i, j | 0 <= j < i < |logs| && logs[j].id <= target
        ensures logs[j].id <= logs[i].id
      {
        if j > 0 { assert rest[j - 1].id <= rest[i - 1].id; }
      }
    }
  }

  lemma FreshAfter(logs: seq<Log>, current: int, target: int)
    requires logs != [] && Rises(logs, current, target)
    ensures forall i :: 0 <= i < |logs| - 1 ==>
      (Fresh(logs[1..], Moved(logs[0], current, target), target, i) <==> Fresh(logs, current, target, i + 1))
  {
    var rest, next := logs[1..], Moved(logs[0], current, target);
    forall i | 0 <= i < |rest|
      ensures Fresh(rest, next, target, i) <==> Fresh(logs, current, target, i + 1)
    {
      assert rest[i] == logs[i + 1];
      if Fresh(rest, next, target, i) {
        forall j | 0 <= j < i + 1
          ensures logs[j].id != logs[i + 1].id
        {
          if j > 0 { assert rest[j - 1] == logs[j]; }
        }
      }
      if Fresh(logs, current, target, i + 1) {
        assert logs[0].id != logs[i + 1].id;
        assert forall j :: 0 <= j < i ==> rest[j] == logs[j + 1];
      }
    }
  }

  lemma ReadableAfter(logs: seq<Log>, current: int, target: int)
    requires logs != [] && Rises(logs, current, target)
    ensures Readable(logs, current, target) <==>
      Readable(logs[1..], Moved(logs[0], current, target), target) &&
        (current < logs[0].id <= target ==> logs[0].decodes)
  {
    var rest, next := logs[1..], Moved(logs[0], current, target);
    FreshAfter(logs, current, target);
    if Readable(logs, current, target) {
      forall i | 0 <= i < |rest| && Fresh(rest, next, target, i)
        ensures rest[i].decodes
      {
        assert Fresh(logs, current, target, i + 1);
      }
      assert current < logs[0].id <= target ==> Fresh(logs, current, target, 0);
    } else {
      var i :| 0 <= i < |logs| && Fresh(logs, current, target, i) && !logs[i].decodes;
      if i > 0 { assert Fresh(rest, next, target, i - 1); }
    }
  }

  lemma AddsAfter(logs: seq<Log>, current: int, target: int, l: Log)
    requires logs != [] && Rises(logs, current, target)
    ensures Adds(logs, current, target, l) <==>
      Adds(logs[1..], Moved(logs[0], current, target), target, l) || (current < logs[0].id <= target && l == logs[0])
  {
    var rest, next := logs[1..], Moved(logs[0], current, target);
    FreshAfter(logs, current, target);
    if i :| 0 <= i < |logs| && Fresh(logs, current, target, i) && logs[i] == l {
      if i > 0 { assert Fresh(rest, next, target, i - 1) && rest[i - 1] == l; }
    }
    if i :| 0 <= i < |rest| && Fresh(rest, next, target, i) && rest[i] == l {
      assert Fresh(logs, current, target, i + 1) && logs[i + 1] == l;
    }
    if current < logs[0].id <= target {
      assert Fresh(logs, current, target, 0);
    }
  }

  // ---- The pages of one read ----

  datatype Read = Complete(events: seq<Log>) | Missing | Abandoned

  /** From a page on: a read is complete once it stands at the target, missing
      something when a page adds nothing or the pages run out, and abandoned on
      any other failure. */
  function Reading(serve: (nat, int) -> SyncReply, page: nat, current: int, target: int): Read
    decreases MAX_PAGES - page
  {
    if page >= MAX_PAGES then Read.Missing
    else match serve(page, current)
         case Refused(gap) => if gap then Read.Missing else Read.Abandoned
         case Synced(logs) =>
           match ScanPage(logs, current, target)
           case Rejected => Read.Abandoned
           case Taken(events, next) =>
             if next == target then Read.Complete(events)
             else if events == [] then Read.Missing
             else match Reading(serve, page + 1, next, target)
                  case Complete(more) => Read.Complete(events + more)
                  case other => other
  }

  /** The positions a read asked from, one a page: each page before the last was
      taken, moved on and stayed short of the target. */
  ghost predicate Trip(serve: (nat, int) -> SyncReply, page: nat, target: int, at: seq<int>)
    decreases at
  {
    && at != [] && page + |at| - 1 <= MAX_PAGES
    && (|at| > 1 ==>
        at[0] < at[1] < target && Turns(serve, page, at[0], target, at[1]) && Trip(serve, page + 1, target, at[1..]))
  }

  /** The page asked for at a position is taken and its last fresh log is next. */
  ghost predicate Turns(serve: (nat, int) -> SyncReply, page: nat, current: int, target: int, next: int) {
    var reply := serve(page, current);
    && reply.Synced? && Rises(reply.logs, current, target) && Readable(reply.logs, current, target)
    && (exists l :: Adds(reply.logs, current, target, l) && l.id == next)
    && (forall l :: Adds(reply.logs, current, target, l) ==> l.id <= next)
  }

  /** How the read ended at the page asked for last. */
  ghost predicate Ends(serve: (nat, int) -> SyncReply, page: nat, current: int, target: int, read: Read) {
    if page >= MAX_PAGES then read.Missing?
    else
      var reply := serve(page, current);
      match read
      case Complete(_) => Turns(serve, page, current, target, target)
      case Missing =>
        || (reply.Refused? && reply.gap)
        || (reply.Synced? && Rises(reply.logs, current, target) && forall l :: !Adds(reply.logs, current, target, l))
      case Abandoned =>
        || (reply.Refused? && !reply.gap)
        || (reply.Synced? && !(Rises(reply.logs, current, target) && Readable(reply.logs, current, target)))
  }

  ghost predicate AddedBy(serve: (nat, int) -> SyncReply, page: nat, target: int, at: seq<int>, l: Log)
    decreases at
  {
    at != [] && (AddedAt(serve, page, at[0], target, l) || AddedBy(serve, page + 1, target, at[1..], l))
  }

  ghost predicate AddedAt(serve: (nat, int) -> SyncReply, page: nat, current: int, target: int, l: Log) {
    serve(page, current).Synced? && Adds(serve(page, current).logs, current, target, l)
  }

  /** Every read has one course: the positions it asked from, the page that ended
      it, and on completion exactly the logs its pages added. */
  lemma {:induction false} ReadingIs(serve: (nat, int) -> SyncReply, page: nat, current: int, target: int)
    returns (at: seq<int>)
    requires current < target && page <= MAX_PAGES
    ensures IsCourse(serve, page, target, at, Reading(serve, page, current, target)) && at[0] == current
    decreases MAX_PAGES - page
  {
    at := [current];
    if page == MAX_PAGES || serve(page, current).Refused? {
      StopsHere(serve, page, current, target);
    } else {
      var logs := serve(page, current).logs;
      var scan := ScanPage(logs, current, target);
      PageIs(serve, page, current, target);
      if scan.Taken? && scan.current < target && scan.events != [] {
        var rest := ReadingIs(serve, page + 1, scan.current, target);
        at := [current] + rest;
        Cons(current, rest);
        CourseGrows(serve, page, current, target, at);
      }
    }
  }

  /** The positions lead to the page that ended the read so, and a complete read
      has exactly what their pages added. */
  ghost predicate IsCourse(serve: (nat, int) -> SyncReply, page: nat, target: int, at: seq<int>, read: Read) {
    && Trip(serve, page, target, at) && Ends(serve, page + |at| - 1, at[|at| - 1], target, read)
    && (read.Complete? ==> forall l :: l in read.events <==> AddedBy(serve, page, target, at, l))
  }

  lemma StopsHere(serve: (nat, int) -> SyncReply, page: nat, current: int, target: int)
    requires page <= MAX_PAGES && (page == MAX_PAGES || serve(page, current).Refused?)
    ensures IsCourse(serve, page, target, [current], Reading(serve, page, current, target))
  {
  }

  /** A page that ends the read, or moves it on. */
  lemma PageIs(serve: (nat, int) -> SyncReply, page: nat, current: int, target: int)
    requires page < MAX_PAGES && current < target && serve(page, current).Synced?
    ensures var scan := ScanPage(serve(page, current).logs, current, target);
      if scan.Taken? && scan.current < target && scan.events != [] then
        && current < scan.current && Turns(serve, page, current, target, scan.current)
        && forall l :: l in scan.events <==> AddedAt(serve, page, current, target, l)
      else IsCourse(serve, page, target, [current], Reading(serve, page, current, target))
  {
    var logs := serve(page, current).logs;
    var scan := ScanPage(logs, current, target);
    ScanIs(logs, current, target);
    if scan.Taken? {
      ScanIsWithin(logs, current, target);
      LastAdded(logs, current, target);
      if scan.events == [] || scan.current == target { PageEnds(serve, page, current, target, scan); }
    }
  }

  lemma PageEnds(serve: (nat, int) -> SyncReply, page: nat, current: int, target: int, scan: Scan)
    requires page < MAX_PAGES && current < target && serve(page, current).Synced? && scan.Taken?
    requires scan == ScanPage(serve(page, current).logs, current, target)
    requires Rises(serve(page, current).logs, current, target) && Readable(serve(page, current).logs, current, target)
    requires forall l :: l in scan.events <==> AddedAt(serve, page, current, target, l)
    requires if scan.events == [] then scan.current == current
             else scan.current == target && Turns(serve, page, current, target, target)
    ensures IsCourse(serve, page, target, [current], Reading(serve, page, current, target))
  {
    assert forall l :: Adds(serve(page, current).logs, current, target, l) ==> AddedAt(serve, page, current, target, l);
  }

  lemma CourseGrows(serve: (nat, int) -> SyncReply, page: nat, current: int, target: int, at: seq<int>)
    requires page < MAX_PAGES && |at| > 1 && at[0] == current < at[1] < target && serve(page, current).Synced?
    requires var scan := ScanPage(serve(page, current).logs, current, target);
             && scan.Taken? && scan.current == at[1] && scan.events != []
             && forall l :: l in scan.events <==> AddedAt(serve, page, current, target, l)
    requires Turns(serve, page, current, target, at[1])
    requires IsCourse(serve, page + 1, target, at[1..], Reading(serve, page + 1, at[1], target))
    ensures IsCourse(serve, page, target, at, Reading(serve, page, current, target))
  {
    var more, read := Reading(serve, page + 1, at[1], target), Reading(serve, page, current, target);
    assert at[1..][|at| - 2] == at[|at| - 1];
    if read.Complete? {
      var events := ScanPage(serve(page, current).logs, current, target).events;
      forall l
        ensures l in read.events <==> AddedBy(serve, page, target, at, l)
      {
        assert read.events == events + more.events;
      }
    }
  }

  lemma LastAdded(logs: seq<Log>, current: int, target: int)
    requires current < target && ScanPage(logs, current, target).Taken?
    requires forall l :: l in ScanPage(logs, current, target).events <==> Adds(logs, current, target, l)
    ensures var scan := ScanPage(logs, current, target);
      scan.events != [] ==>
        (exists l :: Adds(logs, current, target, l) && l.id == scan.current) &&
        (forall l :: Adds(logs, current, target, l) ==> l.id <= scan.current)
  {
    var scan := ScanPage(logs, current, target);
    ScanIsWithin(logs, current, target);
    if scan.events != [] {
      WithinMeans(current, scan.events, scan.current);
      assert scan.events[|scan.events| - 1] in scan.events;
    }
  }

  // ---- An honest server ----

  /** The logs beyond a position. */
  function Beyond(run: seq<Log>, current: int): seq<Log> {
    if run == [] then [] else if run[0].id > current then run else Beyond(run[1..], current)
  }

  /** A server that answers every page with the run's next logs, at least one of
      them while any is left. */
  ghost predicate Honest(serve: (nat, int) -> SyncReply, run: seq<Log>, size: nat -> nat) {
    forall page: nat, current: int ::
      serve(page, current) == Synced(FirstOf(Beyond(run, current), size(page))) && size(page) >= 1
  }

  function FirstOf(run: seq<Log>, size: nat): seq<Log> { if size < |run| then run[..size] else run }

  lemma {:induction false} ScanAll(run: seq<Log>, current: int, target: int)
    requires current <= target && Within(current, run, target) && forall i :: 0 <= i < |run| ==> run[i].decodes
    ensures ScanPage(run, current, target) == Taken(run, if run == [] then current else run[|run| - 1].id)
    decreases run
  {
    if run != [] {
      WithinMeans(run[0].id, run[1..], target);
      ScanAll(run[1..], run[0].id, target);
    }
  }

  lemma {:induction false} BeyondAll(current: int, run: seq<Log>, hi: int)
    requires Within(current, run, hi)
    ensures Beyond(run, current) == run
  {
  }

  lemma {:induction false} BeyondPrefix(lo: int, p: seq<Log>, q: seq<Log>, hi: int)
    requires Within(lo, p + q, hi) && p != []
    ensures Beyond(p + q, p[|p| - 1].id) == q && Within(p[|p| - 1].id, q, hi) && Within(lo, p, p[|p| - 1].id)
    decreases p
  {
    ConcatTail(p, q);
    if |p| > 1 {
      BeyondPrefix(p[0].id, p[1..], q, hi);
      WithinMeans(lo, p + q, hi);
      assert p[|p| - 1] == (p + q)[|p| - 1];
    } else {
      assert p[1..] + q == q;
      BeyondAll(p[0].id, q, hi);
    }
  }

  lemma {:induction false} BeyondTwice(run: seq<Log>, current: int, later: int)
    requires current <= later
    ensures Beyond(Beyond(run, current), later) == Beyond(run, later)
  {
    if run != [] && run[0].id <= current {
      BeyondTwice(run[1..], current, later);
    }
  }

  /** Against an honest server, with no more logs than pages, a read is complete
      with exactly the logs the server holds beyond the position. */
  lemma {:induction false} HonestReadCompletes(serve: (nat, int) -> SyncReply, run: seq<Log>, size: nat -> nat,
                                               page: nat, current: int, target: int)
    requires Honest(serve, run, size) && Remains(run, current, target) && page + |Beyond(run, current)| <= MAX_PAGES
    ensures Reading(serve, page, current, target) == Read.Complete(Beyond(run, current))
    decreases MAX_PAGES - page
  {
    var left := Beyond(run, current);
    if size(page) < |left| {
      var next := CutPage(run, current, target, size(page));
      HonestReadCompletes(serve, run, size, page + 1, next, target);
      PageThen(serve, page, current, target, left[..size(page)], next, left[size(page)..]);
      Rejoins(left, size(page));
    } else {
      LastPage(serve, page, current, target, left);
    }
  }

  lemma Rejoins(left: seq<Log>, n: nat)
    requires n <= |left|
    ensures left[..n] + left[n..] == left
  {
  }

  /** What is left beyond the position rises to the target and decodes. */
  ghost predicate Remains(run: seq<Log>, current: int, target: int) {
    var left := Beyond(run, current);
    && current < target && Within(current, left, target) && left != [] && left[|left| - 1].id == target
    && (forall i :: 0 <= i < |left| ==> left[i].decodes)
  }

  lemma PageThen(serve: (nat, int) -> SyncReply, page: nat, current: int, target: int, logs: seq<Log>, next: int,
                 more: seq<Log>)
    requires page < MAX_PAGES && serve(page, current) == Synced(logs) && logs != [] && next < target
    requires ScanPage(logs, current, target) == Taken(logs, next)
    requires Reading(serve, page + 1, next, target) == Read.Complete(more)
    ensures Reading(serve, page, current, target) == Read.Complete(logs + more)
  {
  }

  lemma LastPage(serve: (nat, int) -> SyncReply, page: nat, current: int, target: int, logs: seq<Log>)
    requires page < MAX_PAGES && serve(page, current) == Synced(logs) && logs != [] && logs[|logs| - 1].id == target
    requires current < target && Within(current, logs, target) && (forall i :: 0 <= i < |logs| ==> logs[i].decodes)
    ensures Reading(serve, page, current, target) == Read.Complete(logs)
  {
    ScanAll(logs, current, target);
  }

  /** A page that cuts what is left is taken whole, and the rest is left. */
  lemma CutPage(run: seq<Log>, current: int, target: int, size: nat) returns (next: int)
    requires Remains(run, current, target) && 1 <= size < |Beyond(run, current)|
    ensures var left := Beyond(run, current);
      && ScanPage(left[..size], current, target) == Taken(left[..size], next) && current < next < target
      && Beyond(run, next) == left[size..] && Remains(run, next, target)
  {
    var left := Beyond(run, current);
    var p, q := left[..size], left[size..];
    assert left == p + q;
    next := p[size - 1].id;
    BeyondPrefix(current, p, q, target);
    WithinMeans(current, p, next);
    WithinMeans(next, q, target);
    BeyondTwice(run, current, next);
    assert next < q[0].id <= target;
    WithinHigher(current, p, next, target);
    ScanAll(p, current, target);
  }

  method ReadPage(logs: seq<Log>, start: int, target: int) returns (scan: Scan)
    ensures scan == ScanPage(logs, start, target)
  {
    var current, events := start, [];
    for i := 0 to |logs|
      invariant ScanPage(logs, start, target) == Resumed(events, ScanPage(logs[i..], current, target))
    {
      var log := logs[i];
      assert logs[i..][0] == log && logs[i..][1..] == logs[i + 1..];
      if log.id < current {
        return Rejected;
      }
      if log.id > target || log.id == current {
        continue;
      }
      if !log.decodes {
        return Rejected;
      }
      events := events + [log];
      current := log.id;
    }
    return Taken(events, current);
  }

  ghost function Resumed(events: seq<Log>, rest: Scan): Scan {
    match rest
    case Taken(more, last) => Taken(events + more, last)
    case Rejected => Rejected
  }

  /** Where the chat's missing interval starts. */
  function Position(v: CP.View, chat: int): int {
    if CommittedMax(v, chat) != 0 then CommittedMax(v, chat)
    else if FirstStart(v, chat) > 0 then FirstStart(v, chat) - 1 else 0
  }

  /** Nothing of the interval is left recorded as missing. */
  ghost predicate NoGapThrough(v: CP.View, chat: int, target: int) {
    forall x :: x <= target ==> !InGap(v, chat, x)
  }

  method Resolve(c: Client, state: CP.Checkpoint, chat: int, target: int, write: Write) returns (ok: bool)
    requires c.Valid() && state == c.checkpoint.data && chat > 0 && target > 0
    modifies c.checkpoint
    ensures c.Valid()
    ensures ok ==> NoGapThrough(c.Now(), chat, target)
    ensures c.Now() == if ok then CP.Meaning(CP.ResolveGap(chat, target), old(c.Now())) else old(c.Now())
    ensures ok <==> (HasGapThrough(old(c.Now()), chat, target) ==> write.Written?)
  {
    CP.ReadsRefine(state, chat, target);
    if !CP.HasGapThrough(state, chat, target) {
      return true;
    }
    var status := c.checkpoint.ResolveGapThrough(chat, target, write);
    return status == CP.Saved;
  }

  /** The failures that record the interval: a read that found it missing, and a
      complete one that does not project. */
  predicate LeavesMissing(v: CP.View, chat: int, target: int, serve: (nat, int) -> SyncReply, projects: bool) {
    chat > 0 && target > 0 && Position(v, chat) < target &&
    var read := Reading(serve, 0, Position(v, chat), target);
    read.Missing? || (read.Complete? && !projects)
  }

  /** On success the events run from the chat's position through exactly the
      target, their commits are queued in order and no gap through the target is
      left. On failure nothing is queued, and the whole interval is recorded as a
      gap exactly when the read left it missing. */
  method CatchUp(c: Client, chat: int, target: int, serve: (nat, int) -> SyncReply, projects: bool,
                 write: Write) returns (r: Option<seq<Log>>)
    requires c.Valid()
    modifies c, c.checkpoint
    ensures c.Valid()
    ensures r.Some? && Position(old(c.Now()), chat) < target ==>
      && r.value != [] && r.value[|r.value| - 1].id == target
      && Within(Position(old(c.Now()), chat), r.value, target)
    ensures r.Some? && Position(old(c.Now()), chat) >= target ==> r.value == []
    ensures r.Some? ==> chat > 0 && target > 0 && NoGapThrough(c.Now(), chat, target)
    ensures r.Some? ==>
      c.Now() == CP.Meaning(CP.ResolveGap(chat, target), old(c.Now())) &&
        c.queue == Enqueue(old(c.queue), chat, Ids(r.value))
    ensures r.Some? <==>
      && chat > 0 && target > 0 && (HasGapThrough(old(c.Now()), chat, target) ==> write.Written?)
      && (Position(old(c.Now()), chat) < target ==>
          projects && Reading(serve, 0, Position(old(c.Now()), chat), target).Complete?)
    ensures r.Some? && Position(old(c.Now()), chat) < target ==>
      r.value == Reading(serve, 0, Position(old(c.Now()), chat), target).events
    ensures r.None? ==> c.queue == old(c.queue)
    ensures r.None? ==>
      c.Now() == if write.Written? && LeavesMissing(old(c.Now()), chat, target, serve, projects) then
        CP.Meaning(CP.RecordGap(chat, Position(old(c.Now()), chat) + 1, target), old(c.Now()))
      else
        old(c.Now())
  {
    if chat <= 0 || target <= 0 {
      return None;
    }
    var state := c.checkpoint.data;
    CP.ReadsRefine(state, chat, target);
    CP.ValidateIff(state);
    var committed, first := CP.CommittedMax(state, chat), CP.FirstDeliveryStart(state, chat);
    var start := if committed != 0 then committed else if first > 0 then first - 1 else 0;
    if start >= target {
      var ok := Resolve(c, state, chat, target, write);
      return if ok then Some([]) else None;
    }
    var read := ReadPages(start, target, serve);
    r := Settle(c, state, chat, start, target, read, projects, write);
  }

  /** A complete read that projects resolves the gap and is queued; a missing
      interval is recorded. */
  method Settle(c: Client, state: CP.Checkpoint, chat: int, start: int, target: int, read: Read, projects: bool,
                write: Write) returns (r: Option<seq<Log>>)
    requires c.Valid() && state == c.checkpoint.data && chat > 0 && 0 <= start < target
    modifies c, c.checkpoint
    ensures c.Valid()
    ensures r.Some? <==> projects && read.Complete? && (HasGapThrough(old(c.Now()), chat, target) ==> write.Written?)
    ensures r.Some? ==>
      && r.value == read.events && NoGapThrough(c.Now(), chat, target)
      && c.Now() == CP.Meaning(CP.ResolveGap(chat, target), old(c.Now()))
      && c.queue == Enqueue(old(c.queue), chat, Ids(read.events))
    ensures r.None? ==> c.queue == old(c.queue)
    ensures r.None? ==>
      c.Now() == if write.Written? && (read.Missing? || (read.Complete? && !projects)) then
        CP.Meaning(CP.RecordGap(chat, start + 1, target), old(c.Now()))
      else
        old(c.Now())
  {
    if read.Complete? && projects {
      var ok := Resolve(c, state, chat, target, write);
      if !ok {
        return None;
      }
      c.QueueEvents(chat, read.events);
      return Some(read.events);
    }
    if !read.Abandoned? {
      var status := c.checkpoint.RecordGap(chat, start + 1, target, write);
    }
    return None;
  }

  /** At most MAX_PAGES pages; one without progress is a missing interval. */
  method ReadPages(start: int, target: int, serve: (nat, int) -> SyncReply) returns (read: Read)
    requires start < target
    ensures read == Reading(serve, 0, start, target)
    ensures read.Complete? ==>
      read.events != [] && read.events[|read.events| - 1].id == target && Within(start, read.events, target)
  {
    var current, events := start, [];
    for page := 0 to MAX_PAGES
      invariant start <= current < target && Within(start, events, current)
      invariant Reading(serve, 0, start, target) == Prefixed(events, Reading(serve, page, current, target))
    {
      var reply := serve(page, current);
      if reply.Refused? {
        return if reply.gap then Read.Missing else Read.Abandoned;
      }
      var scan := ReadPage(reply.logs, current, target);
      if scan.Rejected? {
        return Read.Abandoned;
      }
      ScanIsWithin(reply.logs, current, target);
      WithinAppend(start, events, current, scan.events, scan.current);
      PrefixedTwice(events, scan.events, Reading(serve, page + 1, scan.current, target));
      var progressed := scan.events != [];
      events, current := events + scan.events, scan.current;
      if current == target {
        return Read.Complete(events);
      }
      if !progressed {
        return Read.Missing;
      }
    }
    return Read.Missing;
  }

  ghost function Prefixed(events: seq<Log>, rest: Read): Read {
    if rest.Complete? then Read.Complete(events + rest.events) else rest
  }

  lemma PrefixedTwice(a: seq<Log>, b: seq<Log>, rest: Read)
    ensures Prefixed(a, Prefixed(b, rest)) == Prefixed(a + b, rest)
  {
    if rest.Complete? { Associates(a, b, rest.events); }
  }
}
