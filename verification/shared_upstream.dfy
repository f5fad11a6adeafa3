/** A clone shares the queries it was chained from with the original; runs on one do not show in the results of the other. */
module SharedUpstream {
  import opened Common
  import opened Schema
  import opened Sequences
  import opened Selectors
  import opened Queries
  import opened Decisions
  import opened Rerun
  import opened BuilderCalls

  /** Two upstream chains that are refused alike, and prepare to the same but for redundant predicates. */
  ghost predicate Agree(cs: seq<Query>, ds: seq<Query>) {
    && |cs| == |ds|
    && (cs != [] ==> Prepare(cs).1 == Prepare(ds).1 && FlatSameChain(Prepare(cs).0, Prepare(ds).0))
  }

  lemma AgreeRefl(cs: seq<Query>)
    ensures Agree(cs, cs)
  {
    if cs != [] {
      FlatSameRefl(Prepare(cs).0);
    }
  }

  lemma AgreeTrans(bs: seq<Query>, cs: seq<Query>, ds: seq<Query>)
    requires Agree(bs, cs) && Agree(cs, ds)
    ensures Agree(bs, ds)
  {
    if cs != [] {
      FlatSameChainTrans(Prepare(bs).0, Prepare(cs).0, Prepare(ds).0);
    }
  }

  lemma PrepareCons(q: Query, cs: seq<Query>)
    ensures ([q] + cs)[1..] == cs && ([q] + cs)[0] == q
    ensures Prepare([q] + cs).0[0] == PrepareOwn(q).0
    ensures Prepare([q] + cs).0[1..] == if PrepareOwn(q).1.Some? || cs == [] then cs else Prepare(cs).0
    ensures Prepare([q] + cs).1 == if PrepareOwn(q).1.Some? || cs == [] then PrepareOwn(q).1 else Prepare(cs).1
  {
    assert ([q] + cs)[1..] == cs;
    if PrepareOwn(q).1.Some? || cs == [] {
      assert Prepare([q] + cs).0 == [PrepareOwn(q).0] + cs;
    } else {
      assert Prepare([q] + cs).0 == [PrepareOwn(q).0] + Prepare(cs).0;
    }
  }

  /** A query returns the same on top of agreeing upstream chains. */
  lemma SameResult(q: Query, cs: seq<Query>, ds: seq<Query>, db: DB)
    requires WellFormed(q) && Agree(cs, ds)
    ensures AllOf([q] + cs, db).1 == AllOf([q] + ds, db).1
  {
    PrepareCons(q, cs);
    PrepareCons(q, ds);
    if Prepare([q] + cs).1.None? {
      var own := PrepareOwn(q).0;
      SameShapeWellFormed(q, own);
      var c, d := Prepare([q] + cs).0, Prepare([q] + ds).0;
      assert c == [own] + c[1..] && d == [own] + d[1..];
      if cs == [] {
        assert c == d;
      } else {
        SimilarRefl(own);
        FlatSameCons(own, own, c[1..], d[1..]);
        SourceAgrees(c, d, db);
        SqlAllSimilar(own, own, Source(c), Source(d), db);
      }
    }
  }

  /** A call leaves the upstream chain alone or prepares it. */
  lemma CallUpstream(chain: seq<Query>, call: Call, db: DB)
    requires chain != [] && WellFormed(chain[0])
    ensures var left := CallOf(chain, call, db)[1..];
            left == chain[1..] || (|chain| > 1 && left == Prepare(chain[1..]).0)
  {
    if Run(call) {
      RunIsCall(chain, call, db);
      match call
      case All => PreparedUpstream(chain[0], chain[1..]);
      case First => PreparedUpstream(Limited(chain, Some(1))[0], chain[1..]);
      case Only => PreparedUpstream(Limited(chain, Some(2))[0], chain[1..]);
      case IDs => PreparedUpstream(SelectIds(chain)[0], chain[1..]);
      case Exist => PreparedUpstream(SelectIds(Limited(chain, Some(1)))[0], chain[1..]);
    } else {
      ConfigureIsCall(chain, call, db);
    }
  }

  lemma PreparedUpstream(q: Query, up: seq<Query>)
    ensures var left := Prepare([q] + up).0[1..]; left == up || (up != [] && left == Prepare(up).0)
  {
    PrepareCons(q, up);
  }

  lemma {:induction false} CallsUpstream(chain: seq<Query>, calls: seq<Call>, db: DB)
    requires chain != [] && WellFormed(chain[0])
    ensures Agree(CallsOf(chain, calls, db)[1..], chain[1..])
    decreases |calls|
  {
    if calls == [] {
      AgreeRefl(chain[1..]);
    } else {
      var before := CallsOf(chain, Init(calls), db);
      CallsUpstream(chain, Init(calls), db);
      CallUpstream(before, Last(calls), db);
      var after := CallOf(before, Last(calls), db)[1..];
      if after != before[1..] {
        PrepareTwice(before[1..]);
      } else {
        AgreeRefl(after);
      }
      AgreeTrans(after, before[1..], chain[1..]);
    }
  }

  /** Whatever is called and run on a clone, the original returns what it would have returned. */
  lemma CallsOnCloneInvisible(chain: seq<Query>, calls: seq<Call>, db: DB)
    requires chain != [] && WellFormed(chain[0])
    ensures forall later :: AllOf([chain[0]] + CallsOf(chain, calls, db)[1..], later).1 == AllOf(chain, later).1
  {
    CallsUpstream(chain, calls, db);
    assert [chain[0]] + chain[1..] == chain;
    forall later ensures AllOf([chain[0]] + CallsOf(chain, calls, db)[1..], later).1 == AllOf(chain, later).1 {
      SameResult(chain[0], CallsOf(chain, calls, db)[1..], chain[1..], later);
    }
  }
}
