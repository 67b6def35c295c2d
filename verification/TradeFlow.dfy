/** Sliding windows over trades, cumulative volume delta, and the normalised
    imbalance vote. */
module TradeFlow {
  import opened Common

  datatype Trade = Trade(price: real, volume: real, isBuy: bool, ts: int)

  datatype Config = Config(tfiWindow: nat, velocityWindow: nat, largePrintMult: real, avgPeriod: nat, threshold: real)

  datatype Tfi = Tfi(tfi: real, cvd: real, velocity: int, largePrint: bool, ts: int)

  // ---- Windows by timestamp ------------------------------------------------------

  /** What popping from the front leaves: everything from the first trade that
      is not older than the cutoff. */
  function DropOld(s: seq<Trade>, cutoff: int): seq<Trade>
  {
    if s != [] && s[0].ts < cutoff then DropOld(s[1..], cutoff) else s
  }

  /** The same on bare timestamps. */
  function DropStale(s: seq<int>, cutoff: int): seq<int>
  {
    if s != [] && s[0] < cutoff then DropStale(s[1..], cutoff) else s
  }

  function Stamps(s: seq<Trade>): (t: seq<int>)
    ensures |t| == |s| && forall i | 0 <= i < |s| :: t[i] == s[i].ts
  {
    seq(|s|, i requires 0 <= i < |s| => s[i].ts)
  }

  /** All trades not older than the cutoff. */
  function Within(s: seq<Trade>, cutoff: int): seq<Trade>
  {
    if s == [] then []
    else
      var p := Within(s[..|s| - 1], cutoff);
      if s[|s| - 1].ts >= cutoff then p + [s[|s| - 1]] else p
  }

  ghost predicate InOrder(s: seq<Trade>)
  {
    forall i, j | 0 <= i < j < |s| :: s[i].ts <= s[j].ts
  }

  lemma {:induction false} WithinAll(s: seq<Trade>, cutoff: int)
    requires forall i | 0 <= i < |s| :: s[i].ts >= cutoff
    ensures Within(s, cutoff) == s
  {
    if s != [] {
      WithinAll(s[..|s| - 1], cutoff);
    }
  }

  /** A window as the calls build it: each trade evicts, then is appended. */
  function WindowAfter(span: nat, session: seq<Trade>): seq<Trade>
  {
    if session == [] then []
    else
      var e := session[|session| - 1];
      DropOld(WindowAfter(span, session[..|session| - 1]), e.ts - span) + [e]
  }

  function StampsAfter(span: nat, session: seq<Trade>): seq<int>
  {
    if session == [] then []
    else
      var e := session[|session| - 1];
      DropStale(StampsAfter(span, session[..|session| - 1]), e.ts - span) + [e.ts]
  }

  lemma WindowAfterStep(span: nat, session: seq<Trade>, e: Trade)
    ensures WindowAfter(span, session + [e]) == DropOld(WindowAfter(span, session), e.ts - span) + [e]
  {
    assert (session + [e])[..|session|] == session;
  }

  lemma StampsAfterStep(span: nat, session: seq<Trade>, e: Trade)
    ensures StampsAfter(span, session + [e]) == DropStale(StampsAfter(span, session), e.ts - span) + [e.ts]
  {
    assert (session + [e])[..|session|] == session;
  }

  lemma SignedVolumeStep(session: seq<Trade>, e: Trade)
    ensures SignedVolume(session + [e]) == SignedVolume(session) + if e.isBuy then e.volume else -e.volume
  {
    assert (session + [e])[..|session|] == session;
  }

  /** Popping from the front drops a prefix of old trades and stops at the first
      other one. */
  lemma {:induction false} DropOldIsSuffix(s: seq<Trade>, cutoff: int) returns (d: nat)
    ensures d <= |s| && DropOld(s, cutoff) == s[d..]
    ensures forall i | 0 <= i < d :: s[i].ts < cutoff
    ensures d < |s| ==> s[d].ts >= cutoff
  {
    if s != [] && s[0].ts < cutoff {
      var e := DropOldIsSuffix(s[1..], cutoff);
      d := e + 1;
      assert s[1..][e..] == s[d..];
    } else {
      d := 0;
    }
  }

  lemma {:induction false} WithinSplit(a: seq<Trade>, b: seq<Trade>, cutoff: int)
    ensures Within(a + b, cutoff) == Within(a, cutoff) + Within(b, cutoff)
  {
    if b == [] {
      assert a + b == a;
    } else {
      var n := |b| - 1;
      assert (a + b)[..|a| + n] == a + b[..n];
      WithinSplit(a, b[..n], cutoff);
    }
  }

  lemma {:induction false} WithinNone(s: seq<Trade>, cutoff: int)
    ensures Within(s, cutoff) == [] <==> forall i | 0 <= i < |s| :: s[i].ts < cutoff
  {
    if s != [] {
      WithinNone(s[..|s| - 1], cutoff);
    }
  }

  lemma {:induction false} WithinIsRecent(s: seq<Trade>, cutoff: int)
    ensures forall i | 0 <= i < |Within(s, cutoff)| :: Within(s, cutoff)[i].ts >= cutoff
  {
    if s != [] {
      WithinIsRecent(s[..|s| - 1], cutoff);
    }
  }

  lemma TailIsWithinExactly(a: seq<Trade>, b: seq<Trade>, cutoff: int)
    ensures b == Within(a + b, cutoff) <==>
            (forall i | 0 <= i < |a| :: a[i].ts < cutoff) && (forall i | 0 <= i < |b| :: b[i].ts >= cutoff)
  {
    WithinSplit(a, b, cutoff);
    WithinNone(a, cutoff);
    if b == Within(a + b, cutoff) {
      WithinIsRecent(a + b, cutoff);
      WithinAll(b, cutoff);
      assert |Within(a, cutoff)| == 0;
    } else if forall i | 0 <= i < |b| :: b[i].ts >= cutoff {
      WithinAll(b, cutoff);
    }
  }

  /** The cutoff separates the first d trades from the rest. */
  ghost predicate SplitAt(s: seq<Trade>, d: nat, cutoff: int)
    requires d <= |s|
  {
    forall i | 0 <= i < |s| :: s[i].ts < cutoff <==> i < d
  }

  lemma SplitAtParts(a: seq<Trade>, b: seq<Trade>, cutoff: int)
    ensures SplitAt(a + b, |a|, cutoff) <==>
            (forall i | 0 <= i < |a| :: a[i].ts < cutoff) && (forall i | 0 <= i < |b| :: b[i].ts >= cutoff)
  {
    var s := a + b;
    assert forall i | 0 <= i < |b| :: b[i] == s[|a| + i];
    if SplitAt(s, |a|, cutoff) {
      assert forall i | 0 <= i < |a| :: a[i] == s[i];
    }
  }

  /** A suffix is what lies within the cutoff exactly when the cutoff separates
      it from what comes before. */
  lemma SuffixIsWithinExactly(s: seq<Trade>, d: nat, cutoff: int)
    requires d <= |s|
    ensures s[d..] == Within(s, cutoff) <==> SplitAt(s, d, cutoff)
  {
    assert s == s[..d] + s[d..];
    TailIsWithinExactly(s[..d], s[d..], cutoff);
    SplitAtParts(s[..d], s[d..], cutoff);
  }

  /** Popping the old ones from the front keeps exactly those within the cutoff
      when nothing recent comes before something old, and only then. */
  lemma DropOldIsWithinExactly(s: seq<Trade>, cutoff: int)
    ensures DropOld(s, cutoff) == Within(s, cutoff) <==>
            forall i, j | 0 <= i < j < |s| && s[j].ts < cutoff :: s[i].ts < cutoff
  {
    var d := DropOldIsSuffix(s, cutoff);
    SuffixIsWithinExactly(s, d, cutoff);
  }

  /** The window after the whole session holds exactly its trades of the last
      `span` before the latest. */
  ghost predicate WindowRight(span: nat, session: seq<Trade>)
  {
    session != [] ==> WindowAfter(span, session) == Within(session, session[|session| - 1].ts - span)
  }

  /** The window was right after every trade. */
  ghost predicate AlwaysRight(span: nat, session: seq<Trade>)
  {
    forall n | 0 <= n <= |session| :: WindowRight(span, session[..n])
  }

  predicate Stale(span: nat, a: Trade, b: Trade)
  {
    b.ts - a.ts > span
  }

  /** Every trade that was stale when some later trade came, and every trade
      before such a one, is stale at the last. */
  ghost predicate StaleAtEnd(span: nat, session: seq<Trade>)
  {
    forall i, j, m | 0 <= i <= j < m < |session| && Stale(span, session[j], session[m]) ::
      Stale(span, session[i], session[|session| - 1])
  }

  /** What once was stale stays stale for the rest of the session, along with
      everything before it. */
  ghost predicate StaleStaysStale(span: nat, session: seq<Trade>)
  {
    forall n | 0 <= n <= |session| :: StaleAtEnd(span, session[..n])
  }

  lemma {:induction false} WindowIsSuffix(span: nat, session: seq<Trade>) returns (a: nat)
    ensures a <= |session| && WindowAfter(span, session) == session[a..]
  {
    a := 0;
    if session != [] {
      var p, e := session[..|session| - 1], session[|session| - 1];
      var b := WindowIsSuffix(span, p);
      var d := DropOldIsSuffix(p[b..], e.ts - span);
      a := b + d;
      assert p[b..][d..] + [e] == session[a..];
    }
  }

  /** One more trade drops further old ones from the window and stops at the
      first other one. */
  lemma WindowStep(span: nat, p: seq<Trade>, e: Trade, a: nat) returns (b: nat)
    requires a <= |p| && WindowAfter(span, p) == p[a..]
    ensures a <= b <= |p| && WindowAfter(span, p + [e]) == p[b..] + [e]
    ensures forall i | a <= i < b :: Stale(span, p[i], e)
    ensures b < |p| ==> !Stale(span, p[b], e)
  {
    var d := DropOldIsSuffix(p[a..], e.ts - span);
    b := a + d;
    WindowAfterStep(span, p, e);
    assert p[a..][d..] == p[b..];
    assert forall i | a <= i < |p| :: p[i] == p[a..][i - a];
  }

  lemma RightIsSuffix(span: nat, p: seq<Trade>) returns (a: nat)
    requires p != [] && WindowRight(span, p)
    ensures a <= |p| && WindowAfter(span, p) == p[a..] && SplitAt(p, a, p[|p| - 1].ts - span)
  {
    a := WindowIsSuffix(span, p);
    SuffixIsWithinExactly(p, a, p[|p| - 1].ts - span);
  }

  lemma RightAppended(span: nat, p: seq<Trade>, e: Trade)
    ensures WindowRight(span, p + [e]) <==> WindowAfter(span, p + [e]) == Within(p, e.ts - span) + [e]
  {
    assert (p + [e])[..|p|] == p;
  }

  /** The window being right before, it is right after one more trade exactly
      when the cutoff separates what it has dropped from the rest. */
  lemma RightIsSplit(span: nat, p: seq<Trade>, e: Trade, b: nat)
    requires b <= |p| && WindowAfter(span, p + [e]) == p[b..] + [e]
    ensures WindowRight(span, p + [e]) <==> SplitAt(p, b, e.ts - span)
  {
    RightAppended(span, p, e);
    SuffixIsWithinExactly(p, b, e.ts - span);
    EqualBeforeLast(p[b..], Within(p, e.ts - span), e);
  }

  lemma EqualBeforeLast<T>(a: seq<T>, b: seq<T>, x: T)
    ensures a + [x] == b + [x] <==> a == b
  {
    if a + [x] == b + [x] {
      assert |a| + 1 == |a + [x]| == |b + [x]| == |b| + 1;
      assert a == (a + [x])[..|a|] == (b + [x])[..|b|] == b;
    }
  }

  lemma SplitIsStale(span: nat, p: seq<Trade>, e: Trade, a: nat, b: nat)
    requires p != [] && a <= b <= |p| && StaleAtEnd(span, p)
    requires SplitAt(p, a, p[|p| - 1].ts - span) && SplitAt(p, b, e.ts - span)
    ensures StaleAtEnd(span, p + [e])
  {
    var n, session := |p|, p + [e];
    forall i, j, m | 0 <= i <= j < m <= n && Stale(span, session[j], session[m])
      ensures Stale(span, session[i], e)
    {
      if m < n {
        assert Stale(span, p[j], p[m]);
        assert Stale(span, p[i], p[n - 1]);
      }
      assert session[i] == p[i] && i < b;
    }
  }

  lemma StaleIsSplit(span: nat, p: seq<Trade>, e: Trade, a: nat, b: nat)
    requires p != [] && a <= b <= |p| && StaleAtEnd(span, p + [e])
    requires SplitAt(p, a, p[|p| - 1].ts - span)
    requires forall i | a <= i < b :: Stale(span, p[i], e)
    requires b < |p| ==> !Stale(span, p[b], e)
    ensures SplitAt(p, b, e.ts - span)
  {
    var n, session := |p|, p + [e];
    assert forall i | 0 <= i < n :: session[i] == p[i];
    forall i | 0 <= i < n
      ensures Stale(span, p[i], e) <==> i < b
    {
      if i < a {
        assert Stale(span, session[i], session[n - 1]);
        assert Stale(span, session[i], session[n]);
      } else if b <= i {
        StalePrecedes(span, session, b, i);
      }
    }
  }

  lemma StalePrecedes(span: nat, session: seq<Trade>, i: nat, j: nat)
    requires StaleAtEnd(span, session) && i <= j < |session| - 1
    ensures Stale(span, session[j], session[|session| - 1]) ==> Stale(span, session[i], session[|session| - 1])
  {
  }

  lemma SplitIsStaleExactly(span: nat, p: seq<Trade>, e: Trade, a: nat, b: nat)
    requires p != [] && a <= b <= |p| && StaleAtEnd(span, p) && SplitAt(p, a, p[|p| - 1].ts - span)
    requires forall i | a <= i < b :: Stale(span, p[i], e)
    requires b < |p| ==> !Stale(span, p[b], e)
    ensures SplitAt(p, b, e.ts - span) <==> StaleAtEnd(span, p + [e])
  {
    if SplitAt(p, b, e.ts - span) {
      SplitIsStale(span, p, e, a, b);
    }
    if StaleAtEnd(span, p + [e]) {
      StaleIsSplit(span, p, e, a, b);
    }
  }

  /** One more trade after a session whose window was right throughout. */
  lemma RightStep(span: nat, p: seq<Trade>, e: Trade)
    requires p != [] && WindowRight(span, p) && StaleAtEnd(span, p)
    ensures WindowRight(span, p + [e]) <==> StaleAtEnd(span, p + [e])
  {
    var a := RightIsSuffix(span, p);
    var b := WindowStep(span, p, e, a);
    RightIsSplit(span, p, e, b);
    SplitIsStaleExactly(span, p, e, a, b);
  }

  /** Whatever the order of timestamps: the window is right after every trade of
      the session exactly when what once was stale stays stale, along with all
      before it. */
  lemma {:induction false} WindowIsRightExactly(span: nat, session: seq<Trade>)
    ensures AlwaysRight(span, session) <==> StaleStaysStale(span, session)
  {
    if session != [] {
      var p, e := session[..|session| - 1], session[|session| - 1];
      assert session == p + [e];
      WindowIsRightExactly(span, p);
      AlwaysRightStep(span, p, e);
      StaleStaysStaleStep(span, p, e);
      if p == [] {
        OneTradeIsRight(span, session);
      } else if StaleStaysStale(span, p) {
        LastPrefix(span, p);
        RightStep(span, p, e);
      }
    }
  }

  lemma LastPrefix(span: nat, session: seq<Trade>)
    requires AlwaysRight(span, session) && StaleStaysStale(span, session)
    ensures WindowRight(span, session) && StaleAtEnd(span, session)
  {
    assert session[..|session|] == session;
  }

  lemma AlwaysRightStep(span: nat, p: seq<Trade>, e: Trade)
    ensures AlwaysRight(span, p + [e]) <==> AlwaysRight(span, p) && WindowRight(span, p + [e])
  {
    var right := (s: seq<Trade>) => WindowRight(span, s);
    HoldsOnPrefixes(right, p, e);
    assert AlwaysRight(span, p + [e]) <==> forall n | 0 <= n <= |p| + 1 :: right((p + [e])[..n]);
    assert AlwaysRight(span, p) <==> forall n | 0 <= n <= |p| :: right(p[..n]);
  }

  lemma StaleStaysStaleStep(span: nat, p: seq<Trade>, e: Trade)
    ensures StaleStaysStale(span, p + [e]) <==> StaleStaysStale(span, p) && StaleAtEnd(span, p + [e])
  {
    var stale := (s: seq<Trade>) => StaleAtEnd(span, s);
    HoldsOnPrefixes(stale, p, e);
    assert StaleStaysStale(span, p + [e]) <==> forall n | 0 <= n <= |p| + 1 :: stale((p + [e])[..n]);
    assert StaleStaysStale(span, p) <==> forall n | 0 <= n <= |p| :: stale(p[..n]);
  }

  lemma OneTradeIsRight(span: nat, session: seq<Trade>)
    requires |session| == 1
    ensures WindowRight(span, session) && StaleAtEnd(span, session)
  {
    assert session[..0] == [] && WindowAfter(span, session) == [] + [session[0]];
    assert Within(session, session[0].ts - span) == [] + [session[0]];
  }

  /** With timestamps in order the window holds exactly the session's trades of
      the last `span` before the latest. */
  lemma WindowIsWithin(span: nat, session: seq<Trade>)
    requires session != [] && InOrder(session)
    ensures WindowAfter(span, session) == Within(session, session[|session| - 1].ts - span)
  {
    InOrderStaysStale(span, session);
    WindowIsRightExactly(span, session);
    LastPrefix(span, session);
  }

  lemma InOrderStaysStale(span: nat, session: seq<Trade>)
    requires InOrder(session)
    ensures StaleStaysStale(span, session)
  {
    forall n | 0 <= n <= |session|
      ensures StaleAtEnd(span, session[..n])
    {
      var p := session[..n];
      forall i, j, m | 0 <= i <= j < m < |p| && Stale(span, p[j], p[m])
        ensures Stale(span, p[i], p[|p| - 1])
      {
        assert i < j ==> session[i].ts <= session[j].ts;
        assert m < n - 1 ==> session[m].ts <= session[n - 1].ts;
      }
    }
  }

  lemma {:induction false} DropStaleIsDropOld(w: seq<Trade>, cutoff: int)
    ensures DropStale(Stamps(w), cutoff) == Stamps(DropOld(w, cutoff))
  {
    if w != [] && w[0].ts < cutoff {
      DropStaleIsDropOld(w[1..], cutoff);
      assert Stamps(w)[1..] == Stamps(w[1..]);
    }
  }

  /** The velocity queue holds the timestamps of such a window, in any order. */
  lemma {:induction false} StampsAreOfWindow(span: nat, session: seq<Trade>)
    ensures StampsAfter(span, session) == Stamps(WindowAfter(span, session))
  {
    if session != [] {
      var p, e := session[..|session| - 1], session[|session| - 1];
      StampsAreOfWindow(span, p);
      DropStaleIsDropOld(WindowAfter(span, p), e.ts - span);
    }
  }

  // ---- Volumes -------------------------------------------------------------------

  function BuyVolume(s: seq<Trade>): real
  {
    if s == [] then 0.0
    else BuyVolume(s[..|s| - 1]) + if s[|s| - 1].isBuy then s[|s| - 1].volume else 0.0
  }

  function SellVolume(s: seq<Trade>): real
  {
    if s == [] then 0.0
    else SellVolume(s[..|s| - 1]) + if s[|s| - 1].isBuy then 0.0 else s[|s| - 1].volume
  }

  function Normalized(s: seq<Trade>): real
  {
    var total := BuyVolume(s) + SellVolume(s);
    if total < TINY then 0.0 else (BuyVolume(s) - SellVolume(s)) / total
  }

  function VoteOn(s: seq<Trade>, threshold: real): Vote
  {
    VoteOf(Normalized(s), threshold)
  }

  lemma Ratio(a: real, d: real)
    requires d > 0.0 && -d <= a <= d
    ensures -1.0 <= a / d <= 1.0
  {
  }

  /** With nonnegative volumes the imbalance lies between -1 and 1. */
  lemma NormalizedIsBounded(s: seq<Trade>)
    requires NoNegativeVolume(s)
    ensures -1.0 <= Normalized(s) <= 1.0
  {
    NothingSoldExactly(s);
    var b, l := BuyVolume(s), SellVolume(s);
    if b + l >= TINY {
      Ratio(b - l, b + l);
    }
  }

  /** All volume, whoever was buying. */
  function Volume(s: seq<Trade>): real
  {
    if s == [] then 0.0 else Volume(s[..|s| - 1]) + s[|s| - 1].volume
  }

  ghost predicate NoNegativeVolume(s: seq<Trade>)
  {
    forall i | 0 <= i < |s| :: s[i].volume >= 0.0
  }

  /** All volume is on one side. */
  ghost predicate OnlySide(s: seq<Trade>, buying: bool)
  {
    forall i | 0 <= i < |s| && s[i].volume > 0.0 :: s[i].isBuy == buying
  }

  lemma {:induction false} VolumesAddUp(s: seq<Trade>)
    ensures Volume(s) == BuyVolume(s) + SellVolume(s)
    ensures SignedVolume(s) == BuyVolume(s) - SellVolume(s)
  {
    if s != [] {
      VolumesAddUp(s[..|s| - 1]);
    }
  }

  lemma OnlySideStep(p: seq<Trade>, e: Trade, buying: bool)
    ensures OnlySide(p + [e], buying) <==> OnlySide(p, buying) && (e.volume > 0.0 ==> e.isBuy == buying)
  {
    var s := p + [e];
    assert s[|p|] == e && forall i | 0 <= i < |p| :: s[i] == p[i];
  }

  lemma {:induction false} NothingSoldExactly(s: seq<Trade>)
    requires NoNegativeVolume(s)
    ensures BuyVolume(s) >= 0.0 && SellVolume(s) >= 0.0
    ensures SellVolume(s) == 0.0 <==> OnlySide(s, true)
    ensures BuyVolume(s) == 0.0 <==> OnlySide(s, false)
  {
    if s != [] {
      var p, e := s[..|s| - 1], s[|s| - 1];
      assert s == p + [e];
      NothingSoldExactly(p);
      OnlySideStep(p, e, true);
      OnlySideStep(p, e, false);
    }
  }

  lemma QuotientIsOne(a: real, d: real)
    requires d > 0.0
    ensures Times(a / d, d) == a
    ensures (a / d == 1.0 <==> a == d) && (a / d == -1.0 <==> a == -d)
  {
    assert Times(a / d, d) == a;
  }

  /** The imbalance as a share of all volume: what was bought less what was sold; 1
      exactly when only buyers traded, -1 exactly when only sellers did. */
  lemma ImbalanceHasDirection(s: seq<Trade>)
    ensures Volume(s) < TINY ==> Normalized(s) == 0.0
    ensures Volume(s) >= TINY ==> Times(Normalized(s), Volume(s)) == SignedVolume(s)
    ensures NoNegativeVolume(s) && Volume(s) >= TINY ==>
              && (Normalized(s) == 1.0 <==> OnlySide(s, true))
              && (Normalized(s) == -1.0 <==> OnlySide(s, false))
  {
    VolumesAddUp(s);
    if Volume(s) >= TINY {
      QuotientIsOne(SignedVolume(s), Volume(s));
      if NoNegativeVolume(s) {
        NothingSoldExactly(s);
      }
    }
  }

  /** A vote without division: the signed volume against the threshold's share of
      all volume. */
  lemma VoteExactly(s: seq<Trade>, threshold: real)
    requires Volume(s) >= TINY
    ensures VoteOn(s, threshold) == Long <==> SignedVolume(s) > Times(threshold, Volume(s))
    ensures VoteOn(s, threshold) == Short <==>
            SignedVolume(s) <= Times(threshold, Volume(s)) && SignedVolume(s) < -Times(threshold, Volume(s))
  {
    ImbalanceHasDirection(s);
    var x, v := Normalized(s), Volume(s);
    ProductSign(threshold - x, v);
    ProductSign(x + threshold, v);
    assert Times(threshold - x, v) == Times(threshold, v) - Times(x, v);
    assert Times(x + threshold, v) == Times(x, v) + Times(threshold, v);
  }

  /** A long vote needs a buyer in the window, a short one a seller. */
  lemma VoteNeedsTheSide(s: seq<Trade>, threshold: real)
    requires threshold >= 0.0 && NoNegativeVolume(s)
    ensures VoteOn(s, threshold) == Long ==> exists i :: 0 <= i < |s| && s[i].isBuy && s[i].volume > 0.0
    ensures VoteOn(s, threshold) == Short ==> exists i :: 0 <= i < |s| && !s[i].isBuy && s[i].volume > 0.0
  {
    NothingSoldExactly(s);
    VolumesAddUp(s);
    ImbalanceHasDirection(s);
    if Volume(s) >= TINY {
      VoteExactly(s, threshold);
      ProductSign(threshold, Volume(s));
    }
  }

  lemma LargePrintBound(v: real, avg: real, n: real, mult: real)
    requires n > 0.0
    ensures v > Times(avg, mult) <==> Times(v, n) > Times(Times(avg, n), mult)
  {
    var d := v - Times(avg, mult);
    assert Times(v, n) - Times(Times(avg, n), mult) == Times(d, n);
    assert Times(d, n) > 0.0 <==> d > 0.0;
  }

  /** The same trades with buyers and sellers exchanged. */
  function Mirrored(s: seq<Trade>): (m: seq<Trade>)
    ensures |m| == |s| && forall i | 0 <= i < |s| :: m[i] == s[i].(isBuy := !s[i].isBuy)
  {
    seq(|s|, i requires 0 <= i < |s| => s[i].(isBuy := !s[i].isBuy))
  }

  lemma {:induction false} MirrorSwapsVolumes(s: seq<Trade>)
    ensures BuyVolume(Mirrored(s)) == SellVolume(s) && SellVolume(Mirrored(s)) == BuyVolume(s)
  {
    if s != [] {
      MirrorSwapsVolumes(s[..|s| - 1]);
      assert Mirrored(s)[..|s| - 1] == Mirrored(s[..|s| - 1]);
    }
  }

  lemma NegatedQuotient(a: real, d: real)
    requires d != 0.0
    ensures (-a) / d == -(a / d)
  {
  }

  lemma MirrorNegates(s: seq<Trade>)
    ensures Normalized(Mirrored(s)) == -Normalized(s)
  {
    MirrorSwapsVolumes(s);
    var b, l := BuyVolume(s), SellVolume(s);
    if b + l >= TINY {
      NegatedQuotient(b - l, b + l);
      assert l - b == -(b - l) && l + b == b + l;
    }
  }

  /** Exchanging buyers and sellers negates the vote on every window exactly
      when the threshold is not negative. */
  lemma VoteIsSymmetricExactly(threshold: real)
    ensures (forall s: seq<Trade> :: VoteValue(VoteOn(Mirrored(s), threshold)) == -VoteValue(VoteOn(s, threshold)))
            <==> threshold >= 0.0
  {
    if threshold >= 0.0 {
      forall s: seq<Trade>
        ensures VoteValue(VoteOn(Mirrored(s), threshold)) == -VoteValue(VoteOn(s, threshold))
      {
        MirrorNegates(s);
      }
    } else {
      assert Mirrored([]) == [];
      assert VoteValue(VoteOn([], threshold)) == 1;
    }
  }

  function SignedVolume(s: seq<Trade>): real
  {
    if s == [] then 0.0
    else SignedVolume(s[..|s| - 1]) + if s[|s| - 1].isBuy then s[|s| - 1].volume else -s[|s| - 1].volume
  }

  function LastUpTo<T>(s: seq<T>, n: nat): seq<T>
  {
    if |s| <= n then s else s[|s| - n..]
  }

  // ---- The object ------------------------------------------------------------------

  /** The last volumes, whatever sessions they came from. */
  lemma RecentStep(volumes: seq<real>, period: nat, v: real)
    ensures var longer := LastUpTo(volumes, period) + [v];
            LastUpTo(volumes + [v], period) == if |longer| > period then longer[1..] else longer
  {
  }

  class TradeFlowAnalyzer {
    const cfg: Config
    var cvd: real
    var window: seq<Trade>
    var velocity: seq<int>
    var recent: seq<real>
    var lastResult: Tfi
    ghost var session: seq<Trade>     // trades since the session reset
    ghost var volumes: seq<real>      // every volume ever seen

    ghost predicate Valid()
      reads this
    {
      && cvd == SignedVolume(session)
      && recent == LastUpTo(volumes, cfg.avgPeriod)
      && window == WindowAfter(cfg.tfiWindow, session)
      && velocity == StampsAfter(cfg.velocityWindow, session)
    }

    constructor (c: Config)
      ensures Valid() && cfg == c && session == [] && window == []
    {
      cfg := c;
      cvd, window, velocity, recent := 0.0, [], [], [];
      lastResult := Tfi(0.0, 0.0, 0, false, 0);
      session, volumes := [], [];
    }

    method OnTrade(e: Trade) returns (r: Tfi)
      requires Valid()
      modifies this
      ensures Valid()
      ensures session == old(session) + [e] && volumes == old(volumes) + [e.volume]
      ensures cvd == old(cvd) + if e.isBuy then e.volume else -e.volume
      ensures |recent| == (if |volumes| < cfg.avgPeriod then |volumes| else cfg.avgPeriod)
              && recent == volumes[|volumes| - |recent|..]
      ensures recent != [] ==>
                (r.largePrint <==> Times(e.volume, |recent| as real) > Times(Sum(recent), cfg.largePrintMult))
      ensures r == lastResult && r.tfi == Normalized(window) && r.cvd == cvd && r.velocity == |velocity| && r.ts == e.ts
    {
      SignedVolumeStep(session, e);
      Record(e);
      r := BuildResult(e);
    }

    /** The part of on_trade that moves the queues and totals. */
    method Record(e: Trade)
      requires Valid()
      modifies this`cvd, this`window, this`velocity, this`recent, this`session, this`volumes
      ensures Valid()
      ensures session == old(session) + [e] && volumes == old(volumes) + [e.volume]
    {
      WindowAfterStep(cfg.tfiWindow, session, e);
      StampsAfterStep(cfg.velocityWindow, session, e);
      SignedVolumeStep(session, e);
      EvictOld(e.ts);
      window := window + [e];
      cvd := cvd + (if e.isBuy then e.volume else -e.volume);
      UpdateAvgVolume(e.volume);
      session, volumes := session + [e], volumes + [e.volume];
    }

    method UpdateAvgVolume(v: real)
      requires recent == LastUpTo(volumes, cfg.avgPeriod)
      modifies this`recent
      ensures recent == LastUpTo(volumes + [v], cfg.avgPeriod)
    {
      RecentStep(volumes, cfg.avgPeriod, v);
      recent := recent + [v];
      if |recent| > cfg.avgPeriod {
        recent := recent[1..];
      }
    }

    /** A large print is one above so many times the average recent volume. */
    method BuildResult(e: Trade) returns (r: Tfi)
      modifies this`lastResult
      ensures recent != [] ==>
                (r.largePrint <==> Times(e.volume, |recent| as real) > Times(Sum(recent), cfg.largePrintMult))
      ensures r == lastResult && r.tfi == Normalized(window) && r.cvd == cvd && r.velocity == |velocity| && r.ts == e.ts
    {
      var tfi := NormalizedTfi();
      var avg := AvgVolume();
      if recent != [] {
        LargePrintBound(e.volume, avg, |recent| as real, cfg.largePrintMult);
      }
      r := Tfi(tfi, cvd, |velocity|, e.volume > Times(avg, cfg.largePrintMult), e.ts);
      lastResult := r;
    }

    method EvictOld(now: int)
      modifies this`window, this`velocity
      ensures window == DropOld(old(window), now - cfg.tfiWindow)
      ensures velocity == DropStale(old(velocity), now - cfg.velocityWindow) + [now]
    {
      var tfiCutoff := now - cfg.tfiWindow;
      var velocityCutoff := now - cfg.velocityWindow;
      while window != [] && window[0].ts < tfiCutoff
        invariant DropOld(window, tfiCutoff) == DropOld(old(window), tfiCutoff)
        invariant velocity == old(velocity)
        decreases |window|
      {
        window := window[1..];
      }
      while velocity != [] && velocity[0] < velocityCutoff
        invariant DropStale(velocity, velocityCutoff) == DropStale(old(velocity), velocityCutoff)
        invariant window == DropOld(old(window), tfiCutoff)
        decreases |velocity|
      {
        velocity := velocity[1..];
      }
      velocity := velocity + [now];
    }

    /** The share of the window's volume that was bought less the share sold. */
    method NormalizedTfi() returns (norm: real)
      ensures norm == Normalized(window)
      ensures Volume(window) < TINY ==> norm == 0.0
      ensures Volume(window) >= TINY ==> Times(norm, Volume(window)) == SignedVolume(window)
      ensures NoNegativeVolume(window) && Volume(window) >= TINY ==>
                (norm == 1.0 <==> OnlySide(window, true)) && (norm == -1.0 <==> OnlySide(window, false))
    {
      ImbalanceHasDirection(window);
      var buy, sell := 0.0, 0.0;
      for i := 0 to |window|
        invariant buy == BuyVolume(window[..i]) && sell == SellVolume(window[..i])
      {
        assert window[..i + 1][..i] == window[..i];
        if window[i].isBuy {
          buy := buy + window[i].volume;
        } else {
          sell := sell + window[i].volume;
        }
      }
      assert window[..|window|] == window;
      var total := buy + sell;
      norm := if total < TINY then 0.0 else (buy - sell) / total;
    }

    method AvgVolume() returns (avg: real)
      ensures recent == [] ==> avg == 1.0
      ensures recent != [] ==> Times(avg, |recent| as real) == Sum(recent)
    {
      if recent == [] {
        return 1.0;
      }
      var sum := 0.0;
      for i := 0 to |recent|
        invariant sum == Sum(recent[..i])
      {
        assert recent[..i + 1][..i] == recent[..i];
        sum := sum + recent[i];
      }
      assert recent[..|recent|] == recent;
      avg := sum / |recent| as real;
    }

    /** Long on more net buying than the threshold's share of the volume, short on
        more net selling; a window without volume counts as balanced. */
    method CurrentVote() returns (v: Vote)
      ensures v == VoteOn(window, cfg.threshold)
      ensures var net, least := if Volume(window) < TINY then 0.0 else SignedVolume(window),
                                Times(cfg.threshold, if Volume(window) < TINY then 1.0 else Volume(window));
              (v == Long <==> net > least) && (v == Short <==> net <= least && net < -least)
      ensures cfg.threshold >= 0.0 && NoNegativeVolume(window) ==>
                && (v == Long ==> exists i :: 0 <= i < |window| && window[i].isBuy && window[i].volume > 0.0)
                && (v == Short ==> exists i :: 0 <= i < |window| && !window[i].isBuy && window[i].volume > 0.0)
    {
      ImbalanceHasDirection(window);
      if Volume(window) >= TINY {
        VoteExactly(window, cfg.threshold);
      } else {
        TimesLaws(cfg.threshold, 1.0, 1.0);
      }
      if cfg.threshold >= 0.0 && NoNegativeVolume(window) {
        VoteNeedsTheSide(window, cfg.threshold);
      }
      var norm := NormalizedTfi();
      v := VoteOf(norm, cfg.threshold);
    }

    /** Clears the windows and the delta, but keeps the recent volumes. */
    method SessionReset()
      requires Valid()
      modifies this`cvd, this`window, this`velocity, this`session
      ensures Valid() && session == [] && window == [] && cvd == 0.0
    {
      cvd, window, velocity := 0.0, [], [];
      session := [];
    }
  }

  /** Out of order a stale trade can hide behind a newer one: after trades at
      100 s, 0 s and 101 s the one of 0 s is still in a five-second window. */
  lemma StaleTradeHides(a: Trade, b: Trade, c: Trade)
    requires a.ts == 100 * SECOND && b.ts == 0 && c.ts == 101 * SECOND
    ensures WindowAfter(5 * SECOND, [a, b, c]) == [a, b, c]
    ensures Within([a, b, c], c.ts - 5 * SECOND) == [a, c]
  {
    var all := [a, b, c];
    assert all[..2] == [a, b] && [a, b][..1] == [a] && [a][..0] == [];
    assert WindowAfter(5 * SECOND, [a]) == [] + [a];
    assert WindowAfter(5 * SECOND, [a, b]) == [a] + [b];
    assert WindowAfter(5 * SECOND, all) == [a, b] + [c];
    assert Within([a], 96 * SECOND) == [] + [a];
    assert Within([a, b], 96 * SECOND) == [a];
    assert Within(all, 96 * SECOND) == [a] + [c];
  }
}
