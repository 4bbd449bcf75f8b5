/** What every run of checkpoint updates keeps, from an empty store. A run is the
    sequence of updates behind a value: those saved behind the loaded one, and for
    a file that a failed write still replaced that update as well, so a reopened
    store goes on from such a run too. */
module CheckpointRuns {
  import opened Basics
  import opened Checkpoints

  function After(ops: seq<Op>): View {
    if ops == [] then Abs(EMPTY)
    else var last := ops[|ops| - 1];
         var before := After(ops[..|ops| - 1]);
         if Legal(last) then Meaning(last, before) else before
  }

  ghost predicate Invariant(v: View) {
    && ValidView(v)
    && (forall c :: c in v.chats ==> c in v.known && v.chats[c] <= v.known[c])
    && v.starts.Keys !! v.chats.Keys
  }

  lemma StepKeepsInvariant(v: View, op: Op)
    requires Invariant(v) && Legal(op)
    ensures Invariant(Meaning(op, v))
  {
    MeaningValid(v, op);
  }

  /** From an empty store every run keeps the checkpoint valid, every committed
      chat at or below its known target, and delivery starts only for chats
      that were never committed. */
  lemma {:induction false} RunsKeepInvariant(ops: seq<Op>)
    ensures Invariant(After(ops))
  {
    if ops != [] {
      RunsKeepInvariant(ops[..|ops| - 1]);
      if Legal(ops[|ops| - 1]) {
        StepKeepsInvariant(After(ops[..|ops| - 1]), ops[|ops| - 1]);
      }
    }
  }

  predicate Deletes(op: Op, chat: int) {
    op.Install? && Legal(op) && chat in op.deleted
  }

  /** The updates since the chat was last deleted start here. */
  function Since(ops: seq<Op>, chat: int): (index: nat)
    ensures index <= |ops|
    ensures index > 0 ==> Deletes(ops[index - 1], chat)
    ensures forall i :: index <= i < |ops| ==> !Deletes(ops[i], chat)
  {
    if ops == [] then 0
    else if Deletes(ops[|ops| - 1], chat) then |ops|
    else Since(ops[..|ops| - 1], chat)
  }

  predicate Recorded(op: Op, chat: int) {
    op.RecordStart? && op.chat == chat && Legal(op)
  }

  predicate Committing(op: Op, chat: int) {
    op.Commit? && op.chat == chat && Legal(op)
  }

  /** Live admissions, and commits, of the chat since it was last deleted. */
  function Admissions(ops: seq<Op>, chat: int): set<int> {
    set i | Since(ops, chat) <= i < |ops| && Recorded(ops[i], chat) :: ops[i].log
  }

  function Commits(ops: seq<Op>, chat: int): set<int> {
    set i | Since(ops, chat) <= i < |ops| && Committing(ops[i], chat) :: ops[i].log
  }

  lemma HistoryStep(ops: seq<Op>, chat: int)
    requires ops != []
    ensures var last, before := ops[|ops| - 1], ops[..|ops| - 1];
      if Deletes(last, chat) then Admissions(ops, chat) == {} && Commits(ops, chat) == {}
      else
        && Admissions(ops, chat) == Admissions(before, chat) + (if Recorded(last, chat) then {last.log} else {})
        && Commits(ops, chat) == Commits(before, chat) + (if Committing(last, chat) then {last.log} else {})
  {
    var last, before := ops[|ops| - 1], ops[..|ops| - 1];
    if !Deletes(last, chat) {
      assert Since(ops, chat) == Since(before, chat);
      assert forall i :: 0 <= i < |before| ==> before[i] == ops[i];
      forall x | x in Admissions(before, chat)
        ensures x in Admissions(ops, chat)
      {
        var i :| Since(before, chat) <= i < |before| && Recorded(before[i], chat) && before[i].log == x;
        assert ops[i] == before[i];
      }
      forall x | x in Commits(before, chat)
        ensures x in Commits(ops, chat)
      {
        var i :| Since(before, chat) <= i < |before| && Committing(before[i], chat) && before[i].log == x;
        assert ops[i] == before[i];
      }
    }
  }

  ghost predicate Least(x: int, s: set<int>) {
    x in s && forall y :: y in s ==> x <= y
  }

  ghost predicate Greatest(x: int, s: set<int>) {
    x in s && forall y :: y in s ==> y <= x
  }

  ghost predicate Extremes(v: View, admissions: set<int>, commits: set<int>, chat: int) {
    && (chat in v.chats <==> commits != {})
    && (chat in v.chats ==> Greatest(v.chats[chat], commits))
    && (chat in v.starts <==> admissions != {} && commits == {})
    && (chat in v.starts ==> Least(v.starts[chat], admissions))
  }

  lemma ExtremesStep(v: View, op: Op, admissions: set<int>, commits: set<int>, chat: int)
    requires Extremes(v, admissions, commits, chat) && Legal(op)
    ensures Deletes(op, chat) ==> Extremes(Meaning(op, v), {}, {}, chat)
    ensures !Deletes(op, chat) ==> Extremes(Meaning(op, v),
      admissions + (if Recorded(op, chat) then {op.log} else {}),
        commits + (if Committing(op, chat) then {op.log} else {}), chat)
  {
    if op.Install? {
      InstallExtremes(v, op, admissions, commits, chat);
    } else if op.RecordStart? {
      StartExtremes(v, op, admissions, commits, chat);
    } else if op.Commit? {
      CommitExtremes(v, op, admissions, commits, chat);
    } else {
      OtherExtremes(v, op, admissions, commits, chat);
    }
  }

  lemma InstallExtremes(v: View, op: Op, admissions: set<int>, commits: set<int>, chat: int)
    requires Extremes(v, admissions, commits, chat) && Legal(op) && op.Install?
    ensures Deletes(op, chat) ==> Extremes(Meaning(op, v), {}, {}, chat)
    ensures !Deletes(op, chat) ==> Extremes(Meaning(op, v), admissions + {}, commits + {}, chat)
  {
    assert chat in Elements(op.deleted) <==> chat in op.deleted;
    assert admissions + {} == admissions && commits + {} == commits;
  }

  lemma StartExtremes(v: View, op: Op, admissions: set<int>, commits: set<int>, chat: int)
    requires Extremes(v, admissions, commits, chat) && Legal(op) && op.RecordStart?
    ensures Extremes(Meaning(op, v), admissions + (if Recorded(op, chat) then {op.log} else {}), commits + {}, chat)
  {
    assert commits + {} == commits && op.log in admissions + {op.log};
  }

  lemma CommitExtremes(v: View, op: Op, admissions: set<int>, commits: set<int>, chat: int)
    requires Extremes(v, admissions, commits, chat) && Legal(op) && op.Commit?
    ensures Extremes(Meaning(op, v), admissions + {}, commits + (if Committing(op, chat) then {op.log} else {}), chat)
  {
    assert admissions + {} == admissions && op.log in commits + {op.log};
  }

  lemma OtherExtremes(v: View, op: Op, admissions: set<int>, commits: set<int>, chat: int)
    requires Extremes(v, admissions, commits, chat) && !op.Install? && !op.RecordStart? && !op.Commit?
    ensures Extremes(Meaning(op, v), admissions + {}, commits + {}, chat)
  {
    assert admissions + {} == admissions && commits + {} == commits;
  }

  /** A chat is committed exactly when a commit was saved since it was last
      deleted, at the greatest one; it has a delivery start exactly when it was
      admitted and not committed since then, at the least admission. */
  lemma {:induction false} BoundariesAreExtremes(ops: seq<Op>, chat: int)
    ensures Extremes(After(ops), Admissions(ops, chat), Commits(ops, chat), chat)
  {
    if ops != [] {
      var last, before := ops[|ops| - 1], ops[..|ops| - 1];
      BoundariesAreExtremes(before, chat);
      HistoryStep(ops, chat);
      if Legal(last) {
        ExtremesStep(After(before), last, Admissions(before, chat), Commits(before, chat), chat);
      }
    }
  }

  /** No update lowers a chat's committed maximum; only deletion removes it. */
  lemma CommittedMaximaGrow(v: View, op: Op, chat: int)
    requires Legal(op) && chat in v.chats
    ensures Deletes(op, chat) <==> chat !in Meaning(op, v).chats
    ensures chat in Meaning(op, v).chats ==> v.chats[chat] <= Meaning(op, v).chats[chat]
  {
    if op.Install? {
      assert chat in Elements(op.deleted) <==> chat in op.deleted;
    }
  }

  /** The same over any run: between deletions committed maxima never fall. */
  lemma {:induction false} CommittedMaximaGrowInRuns(ops: seq<Op>, more: seq<Op>, chat: int)
    requires chat in After(ops).chats
    requires forall i :: 0 <= i < |more| ==> !Deletes(more[i], chat)
    ensures chat in After(ops + more).chats && After(ops).chats[chat] <= After(ops + more).chats[chat]
    decreases more
  {
    if more == [] {
      assert ops + more == ops;
    } else {
      var rest, last := more[..|more| - 1], more[|more| - 1];
      CommittedMaximaGrowInRuns(ops, rest, chat);
      assert more == rest + [last];
      Associates(ops, rest, [last]);
      Snoc(ops + rest, last);
      if Legal(last) {
        CommittedMaximaGrow(After(ops + rest), last, chat);
      }
    }
  }
}
