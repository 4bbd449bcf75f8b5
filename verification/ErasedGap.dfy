/** A run in which a read of a single chat erases a recorded gap it never read
    (internal/client/sync.go, CatchUp). */
module ErasedGap {
  import opened Basics
  import opened CatchUpRoom
  import opened CatchUpFinish
  import opened CatchUpClient
  import opened DeliverySession

  lemma AfterStep(steps: seq<Step>, step: Step, t: Session)
    requires Enabled(After(steps), step) && Next(After(steps), step) == t
    ensures After(steps + [step]) == t
  {
    assert (steps + [step])[..|steps|] == steps;
  }

  const INSTALL := CP.Install(None, None, [], [], false)
  const LAST := Log(1, 4, Some(3), true)
  const BEFORE := Room(4, 1, true, 2, [], 0, 0, false, [])
  const SKIPPED := Room(4, 4, true, 2, [LAST], 2, 3, false, [LAST])
  const PLAN: map<int, Planned> := map[1 := Planned(SKIPPED, true)]

  /** The chain's own result: after log 1 the server skips to log 4. */
  lemma SkippedRoom()
    ensures ApplyRun(BEFORE, [LAST], true) == Advanced(SKIPPED) && RoomInv(SKIPPED)
    ensures Owed(SKIPPED, true, 2)
  {
    assert [LAST][1..] == [];
    assert Walk([], 4, 4) == Clean([]);
    assert SKIPPED.events[0].id == 4;
  }

  function ViewOf(commits: map<int, int>, gaps: map<int, CP.Gap>): CP.View {
    CP.View(false, 0, 0, commits, commits, gaps, map[], map[])
  }

  /** A session with no plan, queue or reads yet. */
  function Connected(v: CP.View): Session { Session(v, map[], map[], map[], map[], map[], map[], Fresh) }

  /** An installation that observes nothing changes only the clean flag. */
  lemma Installs(s: Session, commits: map<int, int>)
    requires s.cp.(clean := false) == ViewOf(commits, map[])
    ensures Enabled(s, Connect(INSTALL)) && Next(s, Connect(INSTALL)) == Connected(ViewOf(commits, map[]))
  {
    var v := s.cp;
    assert CP.Elements([]) == {} && v.chats - {} == commits && v.known - {} == commits;
    assert v.gaps - {} == map[] && v.watermarks - {} == map[] && v.starts - {} == map[];
    var raised := CP.RaisedAll(commits, commits);
    forall c ensures c in raised <==> c in commits {}
    forall c | c in commits ensures raised[c] == commits[c] {}
    assert raised == commits;
  }

  /** The first session admits and commits log 1. */
  function FirstSession(): seq<Step> { [] + [Connect(INSTALL)] + [Chained(map[])] + [Admit(1, 1)] + [CommitHead(1, 1)] }

  lemma FirstSessionRuns()
    ensures After(FirstSession()).cp == ViewOf(map[1 := 1], map[])
  {
    var s1 := Connected(ViewOf(map[], map[]));
    Installs(START, map[]);
    AfterStep([], Connect(INSTALL), s1);
    var s2 := s1.(phase := Open);
    AfterStep([] + [Connect(INSTALL)], Chained(map[]), s2);
    var admitted := CP.View(false, 0, 0, map[], map[1 := 1], map[], map[], map[1 := 1]);
    var s3 := s2.(cp := admitted, queue := map[1 := [1]], queued := map[1 := [1]]);
    Admits(s2, s3);
    AfterStep([] + [Connect(INSTALL)] + [Chained(map[])], Admit(1, 1), s3);
    var s4 := s3.(cp := ViewOf(map[1 := 1], map[]), queue := map[], committed := map[1 := [1]]);
    assert map[1 := 1] - {1} == map[];
    Commits(s3, 1, s4);
    AfterStep([] + [Connect(INSTALL)] + [Chained(map[])] + [Admit(1, 1)], CommitHead(1, 1), s4);
  }

  lemma Admits(s: Session, t: Session)
    requires s == Connected(ViewOf(map[], map[])).(phase := Open)
    requires t ==
      s.(cp := CP.View(false, 0, 0, map[], map[1 := 1], map[], map[], map[1 := 1]), queue := map[1 := [1]],
         queued := map[1 := [1]])
    ensures Enabled(s, Admit(1, 1)) && Next(s, Admit(1, 1)) == t
  {
    assert [] + [1] == [1];
  }

  lemma Commits(s: Session, log: int, t: Session)
    requires s.queue == map[1 := [log]] && log > 0 && s.committed == map[]
    requires t == s.(cp := CP.Meaning(CP.Commit(1, log), s.cp), queue := map[], committed := map[1 := [log]])
    ensures Enabled(s, CommitHead(1, log)) && Next(s, CommitHead(1, log)) == t
  {
    assert Dequeue(s.queue, 1) == map[];
    assert [] + [log] == [log];
  }

  /** The second one catches up: it skips (1, 3], delivers log 4 and commits it. */
  function SecondSession(): seq<Step> {
    FirstSession() + [Connect(INSTALL)] + [Chained(PLAN)] + [FinishRoom(1, 9)] + [CommitHead(1, 4)]
  }

  function Finishing(): Session {
    Session(ViewOf(map[1 := 1], map[]), map[], map[], map[], PLAN, PLAN, map[], Phase.Finishing)
  }

  function Delivering(): Session {
    Session(ViewOf(map[1 := 1], map[1 := CP.Gap(2, 3)]), map[1 := [4]], map[1 := [4]], map[], map[], PLAN, map[], Open)
  }

  lemma Finishes()
    ensures Enabled(Finishing(), FinishRoom(1, 9)) && Next(Finishing(), FinishRoom(1, 9)) == Delivering()
  {
    var s := Finishing();
    var op := CP.RecordGap(1, 2, 3);
    assert WritesOf(s, 1) == [op] && DoneWrites(s, 1, 9) == [op];
    assert [op][..0] == [] && GapsThrough(map[], []) == map[];
    assert GapsThrough(map[], [op]) == map[1 := CP.Gap(2, 3)];
    assert EventsOf(s, 1) == [4];
    assert [] + [4] == [4] && PLAN - {1} == map[];
  }

  lemma SecondSessionRuns()
    ensures After(SecondSession()) ==
      Delivering().(cp := ViewOf(map[1 := 4], map[1 := CP.Gap(2, 3)]), queue := map[], committed := map[1 := [4]])
  {
    FirstSessionRuns();
    SkippedRoom();
    Installs(After(FirstSession()), map[1 := 1]);
    AfterStep(FirstSession(), Connect(INSTALL), Connected(ViewOf(map[1 := 1], map[])));
    assert Plannable(ViewOf(map[1 := 1], map[]), 1, Planned(SKIPPED, true));
    AfterStep(FirstSession() + [Connect(INSTALL)], Chained(PLAN), Finishing());
    Finishes();
    AfterStep(FirstSession() + [Connect(INSTALL)] + [Chained(PLAN)], FinishRoom(1, 9), Delivering());
    var done :=
      Delivering().(cp := ViewOf(map[1 := 4], map[1 := CP.Gap(2, 3)]), queue := map[], committed := map[1 := [4]]);
    Commits(Delivering(), 4, done);
    AfterStep(FirstSession() + [Connect(INSTALL)] + [Chained(PLAN)] + [FinishRoom(1, 9)], CommitHead(1, 4), done);
  }

  /** The promise fails: a read whose target is the commit reads nothing, and
      resolves the skipped interval below it. Log 2 is then committed past,
      neither delivered, nor read, nor recorded. */
  lemma SkippedGapCanBeErased()
    ensures var s := After(SecondSession() + [Recovered(1, 4, [])]);
      Owes(s, 1, 2) && CommittedMax(s.cp, 1) >= 2 && !InGap(s.cp, 1, 2) && !ReadAgain(s, 1, 2) && Erased(s, 1, 2)
  {
    SkippedRoom();
    SecondSessionRuns();
    var t := After(SecondSession());
    var s := Next(t, Recovered(1, 4, []));
    AfterStep(SecondSession(), Recovered(1, 4, []), s);
    assert ReadingsOf(s, 1) == [Reading(4, 4)];
    assert Reading(4, 4) in ReadingsOf(s, 1);
  }
}
