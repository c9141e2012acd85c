/** What becomes of each worker a failover session used, who is asked, and how the session ends. */
module TafVerdicts {
  import opened Bytes
  import opened MySQLInts
  import opened Seqs
  import opened Taf
  import Netstrings

  // A granted worker with its answer; only some requests may hold on to a worker that waits.
  datatype Use = Use(grant: Grant, answer: Answer, mayHold: bool)

  function Uses(w: World): seq<Use>
  {
    if w.AsksDirectly() then DirectUse(w) else PrimaryUse(w) + FallbackUse(w)
  }

  function DirectUse(w: World): seq<Use>
    requires w.AsksDirectly()
  {
    [Use(Grant(w.DirectPool(), w.direct.worker, w.direct.ticket), w.directAnswer, true)]
  }

  function PrimaryUse(w: World): seq<Use>
  {
    if w.AsksPrimary() then [Use(Grant(Primary, w.primary.worker, w.primary.ticket), w.primaryAnswer, w.allowDml)] else []
  }

  function FallbackUse(w: World): seq<Use>
  {
    if w.AsksFallback()
    then [Use(Grant(Fallback, w.fallback.worker, w.fallback.ticket), w.fallbackAnswer, w.allowDml)]
    else []
  }

  /** The grants under which workers were dealt with, and those under which they were used. */
  function GrantsOf(deals: seq<Deal>): (gs: seq<Grant>)
    ensures |gs| == |deals|
  {
    seq(|deals|, i requires 0 <= i < |deals| => deals[i].grant)
  }

  function Users(uses: seq<Use>): (gs: seq<Grant>)
    ensures |gs| == |uses|
  {
    seq(|uses|, i requires 0 <= i < |uses| => uses[i].grant)
  }

  lemma GrantOfDeal(deals: seq<Deal>, d: Deal)
    ensures d in deals ==> d.grant in GrantsOf(deals)
  {
    if d in deals {
      var i :| 0 <= i < |deals| && deals[i] == d;
      assert GrantsOf(deals)[i] == d.grant;
    }
  }

  /** The worker got what its answer calls for, and nothing else, under its own pool and ticket. */
  predicate Settled(deals: seq<Deal>, u: Use)
  {
    var a := u.answer;
    && (Returned(u.grant) in deals <==> !a.wait && a.fault == Fine)
    && (Held(u.grant) in deals <==> a.wait && u.mayHold)
    && (Recovered(u.grant, true) in deals <==> !a.wait && a.fault == ErrSaturationKill)
    && (Recovered(u.grant, false) in deals <==>
        if a.wait then !u.mayHold else a.fault != Fine && a.fault != ErrWorkerFail && a.fault != ErrSaturationKill)
    && (u.grant !in GrantsOf(deals) <==> !a.wait && a.fault == ErrWorkerFail)
  }

  /** Each used worker is settled, at most once, and no other worker is touched. */
  ghost predicate AllSettled(deals: seq<Deal>, uses: seq<Use>)
  {
    && (forall u :: u in uses ==> Settled(deals, u))
    && Distinct(GrantsOf(deals))
    && (forall g :: g in GrantsOf(deals) ==> g in Users(uses))
  }

  /** A worker's own deals settle it. */
  lemma DueSettles(u: Use)
    ensures AllSettled(Due(u.grant, u.answer, u.mayHold), [u])
  {
    var deals := Due(u.grant, u.answer, u.mayHold);
    assert Users([u]) == [u.grant];
    assert GrantsOf(deals) == if deals == [] then [] else [u.grant];
  }

  lemma SettledBesides(deals: seq<Deal>, others: seq<Deal>, u: Use)
    requires Settled(deals, u) && u.grant !in GrantsOf(others)
    ensures Settled(deals + others, u) && Settled(others + deals, u)
  {
    assert GrantsOf(deals + others) == GrantsOf(deals) + GrantsOf(others);
    assert GrantsOf(others + deals) == GrantsOf(others) + GrantsOf(deals);
    GrantOfDeal(others, Returned(u.grant));
    GrantOfDeal(others, Held(u.grant));
    GrantOfDeal(others, Recovered(u.grant, true));
    GrantOfDeal(others, Recovered(u.grant, false));
  }

  lemma DistinctTogether(a: seq<Grant>, b: seq<Grant>)
    requires Distinct(a) && Distinct(b) && forall g :: g in a ==> g !in b
    ensures Distinct(a + b)
  {
    forall i, j | 0 <= i < j < |a + b|
      ensures (a + b)[i] != (a + b)[j]
    {
      if i < |a| <= j {
        assert a[i] in a && b[j - |a|] in b;
      }
    }
  }

  /** The settlements of workers of two pools do not disturb each other. */
  lemma SettledTogether(a: seq<Deal>, u: Use, b: seq<Deal>, v: Use)
    requires AllSettled(a, [u]) && AllSettled(b, [v]) && u.grant.pool != v.grant.pool
    ensures AllSettled(a + b, [u] + [v])
  {
    assert Users([u]) == [u.grant] && Users([v]) == [v.grant] && Users([u] + [v]) == [u.grant] + [v.grant];
    assert u in [u] && v in [v];
    SettledBesides(a, b, u);
    SettledBesides(b, a, v);
    assert GrantsOf(a + b) == GrantsOf(a) + GrantsOf(b);
    assert forall g :: g in GrantsOf(a) ==> g == u.grant;
    assert forall g :: g in GrantsOf(b) ==> g == v.grant;
    DistinctTogether(GrantsOf(a), GrantsOf(b));
  }

  /** Each leg settles its own worker. */
  lemma LegsSettle(w: World)
    ensures AllSettled(PrimaryDeals(w), PrimaryUse(w))
    ensures !FallbackWaits(w) ==> AllSettled(FallbackDeals(w), FallbackUse(w))
  {
    if w.AsksPrimary() {
      DueSettles(Use(Grant(Primary, w.primary.worker, w.primary.ticket), w.primaryAnswer, w.allowDml));
    }
    if w.AsksFallback() && !FallbackWaits(w) {
      DueSettles(Use(Grant(Fallback, w.fallback.worker, w.fallback.ticket), w.fallbackAnswer, w.allowDml));
    }
  }

  lemma TwoLegsSettle(w: World)
    requires !FallbackWaits(w)
    ensures AllSettled(PrimaryDeals(w) + FallbackDeals(w), PrimaryUse(w) + FallbackUse(w))
  {
    LegsSettle(w);
    if w.AsksPrimary() && w.AsksFallback() {
      SettledTogether(PrimaryDeals(w), PrimaryUse(w)[0], FallbackDeals(w), FallbackUse(w)[0]);
    } else if w.AsksPrimary() {
      assert PrimaryDeals(w) + [] == PrimaryDeals(w) && PrimaryUse(w) + [] == PrimaryUse(w);
    } else {
      assert [] + FallbackDeals(w) == FallbackDeals(w) && [] + FallbackUse(w) == FallbackUse(w);
    }
  }

  lemma DirectSettles(w: World)
    requires w.AsksDirectly()
    ensures AllSettled(DirectDeals(w), DirectUse(w))
  {
    DueSettles(Use(Grant(w.DirectPool(), w.direct.worker, w.direct.ticket), w.directAnswer, true));
  }

  lemma DealsOfSession(w: World)
    ensures Deals(w) == if w.AsksDirectly() then DirectDeals(w) else PrimaryDeals(w) + FallbackDeals(w)
  {
    if w.AsksDirectly() {
      assert !w.AsksPrimary() && !w.AsksFallback() && PrimaryDeals(w) == [] && FallbackDeals(w) == [];
      assert DirectDeals(w) + [] + [] == DirectDeals(w);
    } else {
      assert DirectDeals(w) == [] && [] + PrimaryDeals(w) == PrimaryDeals(w);
    }
  }

  /** Unless the fallback waits where it must not, the session settles exactly the workers it used. */
  lemma SessionSettles(w: World)
    requires !FallbackWaits(w)
    ensures AllSettled(Deals(w), Uses(w))
  {
    DealsOfSession(w);
    if w.AsksDirectly() {
      DirectSettles(w);
    } else {
      TwoLegsSettle(w);
    }
  }

  /** If it does, its worker alone is not settled: it is recovered into the primary pool, under the primary's ticket. */
  lemma WaitingFallbackSettles(w: World)
    requires FallbackWaits(w)
    ensures Deals(w) != []
    ensures var n := |Deals(w)| - 1;
            && AllSettled(Deals(w)[..n], PrimaryUse(w))
            && Deals(w)[n] == Recovered(Grant(Primary, w.fallback.worker, if w.AsksPrimary() then w.primary.ticket else ""), false)
            && FallbackUse(w)[0].grant !in GrantsOf(Deals(w))
  {
    LegsSettle(w);
    var n := |Deals(w)| - 1;
    assert Deals(w)[..n] == PrimaryDeals(w);
    assert forall g :: g in GrantsOf(Deals(w)) ==> g.pool == Primary;
  }

  /** Who gets the request, from the answers workers give: the fallback only after a timeout without any response. */
  lemma AskedTells(w: World)
    requires Framed(w.primaryAnswer.msgs)
    ensures var first := w.fallbackUp && w.usePrimary && w.primaryUp && w.primary.Granted?;
            var silent := !w.primaryAnswer.wait && w.primaryAnswer.fault == ErrTimeout && Stripped(w.primaryAnswer.msgs) == [];
            && |w.Asked()| <= 2
            && (Primary in w.Asked() <==>
                w.primaryExists && (first || (!w.fallbackUp && !w.readOnly && w.direct.Granted?)))
            && (ReadOnly in w.Asked() <==> w.primaryExists && !w.fallbackUp && w.readOnly && w.direct.Granted?)
            && (Fallback in w.Asked() <==>
                w.primaryExists && w.fallbackUp && w.fallback.Granted? && (first ==> silent))
            && (|w.Asked()| == 2 ==> w.Asked() == [Primary, Fallback])
  {
    OnlySilentTimeoutsRetry(w);
  }

  /** The uses are the pools asked, in order. */
  lemma UsesAreAsked(w: World)
    ensures |Uses(w)| == |w.Asked()| && forall i :: 0 <= i < |Uses(w)| ==> Uses(w)[i].grant.pool == w.Asked()[i]
  {
  }

  /** A session succeeds exactly when the last worker asked is returned or held, if none was denied in between. */
  lemma SuccessIsSettled(w: World)
    requires Uses(w) != [] && !(w.AsksPrimary() && w.Retries() && w.fallback.Denied?)
    ensures var g := Uses(w)[|Uses(w)| - 1].grant;
            Verdict(w) == Fine <==> Returned(g) in Deals(w) || Held(g) in Deals(w)
  {
    var u := Uses(w)[|Uses(w)| - 1];
    if FallbackWaits(w) {
      WaitingFallbackSettles(w);
      GrantOfDeal(Deals(w), Returned(u.grant));
      GrantOfDeal(Deals(w), Held(u.grant));
    } else {
      SessionSettles(w);
      assert Settled(Deals(w), u);
    }
  }

  /** The failures: of the last worker asked, of the pool that denied one, or for want of a primary pool. */
  lemma VerdictTells(w: World)
    ensures !w.primaryExists ==> Verdict(w) == NoPool
    ensures w.primaryExists && Uses(w) == [] ==> Verdict(w) == (if w.fallbackUp then w.fallback else w.direct).fault
    ensures w.AsksPrimary() && w.Retries() && w.fallback.Denied? ==> Verdict(w) == w.fallback.fault
    ensures Uses(w) != [] && !(w.AsksPrimary() && w.Retries() && w.fallback.Denied?) ==>
              var u := Uses(w)[|Uses(w)| - 1];
              Verdict(w) == if !u.answer.wait then u.answer.fault else if u.mayHold then Fine else ErrDML
  {
  }

  /** A reply that lets itself and all later ones through: a final error, or a first reply that is no error. */
  predicate LetsThrough(replies: seq<bytes>, k: nat)
    requires k < |replies|
  {
    KindOf(replies[k]) == Final || (k == 0 && KindOf(replies[0]) == Plain)
  }

  lemma {:induction false} FinalOnwards(replies: seq<bytes>, k: nat)
    requires k <= |replies| && (k < |replies| ==> KindOf(replies[k]) == Final)
    requires forall j :: 0 <= j < k ==> KindOf(replies[j]) != Final
    ensures FromFinal(replies) == replies[k..]
  {
    if k > 0 {
      FinalOnwards(replies[1..], k - 1);
    }
  }

  /** The client gets the replies from the first such one on, whole. */
  lemma ForwardedOnwards(replies: seq<bytes>, k: nat)
    requires k <= |replies| && (k < |replies| ==> LetsThrough(replies, k))
    requires forall j :: 0 <= j < k ==> !LetsThrough(replies, j)
    ensures Forwarded(replies) == replies[k..] && Passed(FRESH, replies) == Concat(replies[k..])
  {
    FilterMeaning(replies);
    if k > 0 {
      assert !LetsThrough(replies, 0);
      assert forall j :: 0 <= j < k ==> !LetsThrough(replies, j) && KindOf(replies[j]) != Final;
      FinalOnwards(replies[1..], k - 1);
      assert replies[1..][k - 1..] == replies[k..];
    }
  }

  lemma {:induction false} AtoiAccumulates(digits: bytes, rest: bytes, value: nat)
    requires forall i :: 0 <= i < |digits| ==> IsDigit(digits[i])
    requires rest == [] || !IsDigit(rest[0])
    requires value < TWO63 && Accumulate(value, digits) < TWO63
    ensures Atoi(digits + rest, value) == (Accumulate(value, digits), |digits|)
    decreases digits
  {
    if digits == [] {
      assert digits + rest == rest;
    } else {
      assert IsDigit(digits[0]);
      var next := value * 10 + (digits[0] - ZERO);
      AccumulateGrows(next, digits[1..]);
      assert (digits + rest)[1..] == digits[1..] + rest;
      AtoiAccumulates(digits[1..], rest, next);
    }
  }

  lemma {:induction false} AccumulateGrows(value: nat, digits: bytes)
    requires forall i :: 0 <= i < |digits| ==> IsDigit(digits[i])
    ensures Accumulate(value, digits) >= value
    decreases digits
  {
    if digits != [] {
      assert IsDigit(digits[0]);
      AccumulateGrows(value * 10 + (digits[0] - ZERO), digits[1..]);
    }
  }

  lemma AtoiReadsDecimal(n: nat, rest: bytes)
    requires n < TWO63 && (rest == [] || !IsDigit(rest[0]))
    ensures Atoi(Decimal(n) + rest, 0) == (n, |Decimal(n)|)
  {
    DecimalReadsBack(n);
    AtoiAccumulates(Decimal(n), rest, 0);
  }

  /** An error message that starts with its code is judged by that code. */
  lemma CodeIsRecognised(code: nat, text: bytes, after: bytes)
    requires code < TWO63 && (text == [] || !IsDigit(text[0]))
    ensures KindOf(Netstrings.NetstringFrom(RC_SQL_ERROR, Decimal(code) + text).serialized + after)
         == if code in RETRIABLE then Retry else Final
  {
    AtoiReadsDecimal(code, text);
    WholeIsRecognised(Decimal(code) + text, after);
  }
}
