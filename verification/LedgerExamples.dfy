/** Small ledgers on which the code does not keep what it is there to keep. */
module LedgerExamples {
  import opened SetSums
  import opened Ledger
  import opened LedgerAgreement
  import opened LedgerQuota

  /** One user's session in one workspace, over `stored` bytes; it holds ten bytes and expired at five. */
  function Lapsed(stored: nat): Books {
    Books(map[1 := Usage(stored, 0)], map[1 := Usage(stored, 0)], map[Key(1, 1) := Session(1, 10, 0, 5, false)],
      map[1 := 1])
  }

  lemma {:induction false} LapsedBalanced(stored: nat)
    ensures Balanced(Lapsed(stored))
  {
    var b := Lapsed(stored);
    forall o: Owner ensures AccountAgrees(b, o) {
      if o == 1 {
        assert Held(b.holders, o) == {1};
        OneSum(1, Persisted(b.usage));
        OneSum(1, Reserved(b.usage));
      } else {
        assert Held(b.holders, o) == {};
      }
    }
    SumNothing(b.sessions.Keys, Finalizing(b.sessions, 1));
  }

  /** A quota of ten, nothing counted, and yet twenty bytes are let in: the ten that lapsed are subtracted. */
  lemma {:induction false} LapsedUploadExceedsQuota()
    ensures var b, limits := Lapsed(0), Limits(5, 100, true, 10);
      var r := ReserveUpload(b, Key(1, 1), 1, 20, 20, limits, 10);
      Balanced(b) && Total(b, 1, 10) == 0 && r.Says? && r.ok && Total(r.books, 1, 10) == 20 > limits.quota
  {
    var b, limits := Lapsed(0), Limits(5, 100, true, 10);
    LapsedBalanced(0);
    SumNothing(b.sessions.Keys, Uploading(b.sessions, b.holders, 1, 10));
    SumNothing(b.sessions.Keys, Counting(b.sessions, 1, 1, 10));
    SumNothing(b.sessions.Keys, Weighing(b.sessions, 1, 1, 10));
    assert UploadFits(b, Key(1, 1), 1, 20, limits, 10);
    ReserveUploadTotal(b, Key(1, 1), 1, 20, 20, limits, 10, 1);
  }

  /** Five bytes stored under a quota of ten; finalizing the lapsed session counts its ten bytes after all. */
  lemma {:induction false} LapsedFinalizeExceedsQuota()
    ensures var b := Lapsed(5);
      var r := BeginFinalize(b, Key(1, 1));
      Balanced(b) && Total(b, 1, 10) == 5 && r.Says? && Total(r.books, 1, 10) == 15
  {
    var b := Lapsed(5);
    LapsedBalanced(5);
    SumNothing(b.sessions.Keys, Uploading(b.sessions, b.holders, 1, 10));
    BeginFinalizeTotal(b, Key(1, 1), 10, 1);
  }

  /** Two workspaces of one account, with five bytes reserved and five stored each. */
  const SHARED := Books(
    map[1 := Usage(10, 10)], map[1 := Usage(5, 5), 2 := Usage(5, 5)], map[], map[1 := 1, 2 := 1])

  lemma {:induction false} SharedBalanced()
    ensures Balanced(SHARED) && OthersReserved(SHARED, 1) == 5 && OthersPersisted(SHARED, 1) == 5
  {
    forall o: Owner ensures AccountAgrees(SHARED, o) {
      if o == 1 {
        assert Held(SHARED.holders, o) == {2} + {1};
        SumAdd<Workspace>({2}, 1, Persisted(SHARED.usage));
        SumAdd<Workspace>({2}, 1, Reserved(SHARED.usage));
        OneSum(2, Persisted(SHARED.usage));
        OneSum(2, Reserved(SHARED.usage));
      } else {
        assert Held(SHARED.holders, o) == {};
      }
    }
    assert Held(SHARED.holders, 1) - {1} == {2};
    OneSum(2, Persisted(SHARED.usage));
    OneSum(2, Reserved(SHARED.usage));
  }

  lemma {:induction false} OneSum(w: Workspace, f: Workspace -> int)
    ensures SumOver({w}, f) == f(w)
  {
    SumPick({w}, w, f);
    assert {w} - {w} == {};
  }

  /**
   * Giving back eight reserved bytes where five are, or taking eight stored ones off five, leaves the account out of
   * step.
   */
  lemma {:induction false} FinishTooMuchDisagrees()
    ensures Balanced(SHARED) && !Agrees(FinishReservation(SHARED, 1, 8, 0).books)
    ensures !Agrees(FinishReservation(SHARED, 1, 0, -8).books)
  {
    SharedBalanced();
    FinishAgreesIff(SHARED, 1, 8, 0);
    FinishAgreesIff(SHARED, 1, 0, -8);
  }
}
