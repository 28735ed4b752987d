/**
 One subscription filter against both ways of getting events: live delivery and the
 catch-up query over the ledger rows of the same events.
 */
module LiveCatchup {
  import opened Options
  import opened EventFilter
  import Ledger
  import Sse = SseManager

  /** The row a tenant's event leaves in the ledger, and the query of a tenant's client. */
  predicate IsRowOf(r: Ledger.Row, e: Sse.Event) {
    e.company == Some(r.company) && r.eventType == e.eventType && r.dataUuid == e.dataUuid
    && r.data == e.data && r.sequence == e.id
  }

  function QueryOf(f: Sse.Filter): Ledger.Query {
    Ledger.Query(f.company.GetOr(""), f.dataUuid, f.pattern)
  }

  /** The catch-up query runs, and what a client would get live it returns, and nothing else. */
  ghost predicate SubscriptionAgrees(f: Sse.Filter) {
    CatchupRuns(f.pattern) && forall e: Sse.Event, r: Ledger.Row ::
      IsRowOf(r, e) && Sse.Present(e.company) && e.eventType != Sse.HEARTBEAT ==>
        (Sse.ClientMatches(f, e) <==> Ledger.Wanted(QueryOf(f), r))
  }

  /** Both agree for a tenant's client whose data_uuid filter is not an empty text and whose
      pattern is a portable one. */
  lemma PortableSubscriptionsAgree(f: Sse.Filter)
    requires Sse.Present(f.company) && f.dataUuid != Some("") && Portable(f.pattern)
    ensures SubscriptionAgrees(f)
  {
    FilterTranslationExact(f.pattern);
    forall e: Sse.Event, r: Ledger.Row
      | IsRowOf(r, e) && Sse.Present(e.company) && e.eventType != Sse.HEARTBEAT
      ensures Sse.ClientMatches(f, e) <==> Ledger.Wanted(QueryOf(f), r)
    {
      assert LiveAccepts(f.pattern, e.eventType) == CatchupAccepts(f.pattern, e.eventType);
    }
  }

  /** The two pattern filters agree on every event type but the heartbeat's. */
  ghost predicate TypesAgree(pattern: Option<string>) {
    forall t :: t != Sse.HEARTBEAT ==> LiveAccepts(pattern, t) == CatchupAccepts(pattern, t)
  }

  /** Neither filter lets any event type but the heartbeat's through. */
  ghost predicate OnlyHeartbeats(pattern: Option<string>) {
    forall t :: t != Sse.HEARTBEAT ==> !LiveAccepts(pattern, t) && !CatchupAccepts(pattern, t)
  }

  lemma DisagreesOnType(f: Sse.Filter, t: string)
    requires Sse.Present(f.company) && t != Sse.HEARTBEAT && LiveAccepts(f.pattern, t) != CatchupAccepts(f.pattern, t)
    ensures !SubscriptionAgrees(f)
  {
    var e := Sse.Event(t, "", f.dataUuid, f.company, 1);
    var r := Ledger.Row(1, t, "", 0, f.dataUuid, f.company.value);
    assert IsRowOf(r, e) && Sse.ClientMatches(f, e) != Ledger.Wanted(QueryOf(f), r);
  }

  lemma EmptyUuidDisagrees(f: Sse.Filter, t: string)
    requires Sse.Present(f.company) && f.dataUuid == Some("") && t != Sse.HEARTBEAT && CatchupAccepts(f.pattern, t)
    ensures !SubscriptionAgrees(f)
  {
    var e := Sse.Event(t, "", None, f.company, 1);
    var r := Ledger.Row(1, t, "", 0, None, f.company.value);
    assert IsRowOf(r, e) && !Sse.ClientMatches(f, e) && Ledger.Wanted(QueryOf(f), r);
  }

  lemma TypesDecide(f: Sse.Filter)
    requires Sse.Present(f.company) && CatchupRuns(f.pattern)
    ensures SubscriptionAgrees(f) <==> TypesAgree(f.pattern) && (f.dataUuid == Some("") ==> OnlyHeartbeats(f.pattern))
  {
    if t :| t != Sse.HEARTBEAT && LiveAccepts(f.pattern, t) != CatchupAccepts(f.pattern, t) {
      DisagreesOnType(f, t);
    } else if f.dataUuid == Some("") && !OnlyHeartbeats(f.pattern) {
      var t :| t != Sse.HEARTBEAT && CatchupAccepts(f.pattern, t);
      EmptyUuidDisagrees(f, t);
    } else {
      forall e: Sse.Event, r: Ledger.Row
        | IsRowOf(r, e) && Sse.Present(e.company) && e.eventType != Sse.HEARTBEAT
        ensures Sse.ClientMatches(f, e) <==> Ledger.Wanted(QueryOf(f), r)
      {
        assert LiveAccepts(f.pattern, e.eventType) == CatchupAccepts(f.pattern, e.eventType);
      }
    }
  }

  lemma HeartbeatIsOrdinary()
    ensures '[' !in Sse.HEARTBEAT && ']' !in Sse.HEARTBEAT && '\\' !in Sse.HEARTBEAT
  {
  }

  lemma {:induction false} NoBracketsNoTotal(s: string)
    requires '[' !in s && ']' !in s
    ensures Total(s, Bracket) == 0
  {
    if s != "" {
      assert s[0] in s;
      NoBracketsNoTotal(s[1..]);
    }
  }

  /** That heartbeats are never in the ledger excuses no pattern. */
  lemma TypesAgreeExactly(pattern: Option<string>)
    ensures TypesAgree(pattern) && CatchupRuns(pattern) <==> Portable(pattern)
  {
    FilterTranslationExact(pattern);
    if !Portable(pattern) && CatchupRuns(pattern) {
      var p := pattern.value;
      TranslateIsPerCharacter(p);
      if p == "" {
        assert LiveAccepts(pattern, "a") != CatchupAccepts(pattern, "a");
      } else {
        HeartbeatIsOrdinary();
        NoBracketsNoTotal(Sse.HEARTBEAT);
        var t := DisagreementBeyond(p, Sse.HEARTBEAT);
        LikeMatchesItsTokens(Translate(p), t);
        assert LiveAccepts(pattern, t) != CatchupAccepts(pattern, t);
      }
    }
  }

  // ------------------------------------------- which patterns take only heartbeats

  predicate HasWildcard(p: string) {
    '*' in p || '?' in p
  }

  lemma {:induction false} LiteralTokens(p: string)
    requires !HasWildcard(p) && !HasClass(p)
    ensures GlobTokens(p) == seq(|p|, i requires 0 <= i < |p| => Literal(p[i]))
  {
    if p != "" {
      assert p[0] in p;
      LiteralTokens(p[1..]);
      GlobWithoutClass(p);
    }
  }

  lemma {:induction false} LiteralsMatchOne(p: string, ts: seq<Token>, s: string)
    requires ts == seq(|p|, i requires 0 <= i < |p| => Literal(p[i]))
    ensures Matches(ts, s) <==> s == p
  {
    if p != "" {
      assert ts[1..] == seq(|p[1..]|, i requires 0 <= i < |p[1..]| => Literal(p[1..][i]));
      if s != "" {
        LiteralsMatchOne(p[1..], ts[1..], s[1..]);
        if s[0] == p[0] && s[1..] == p[1..] { assert s == [s[0]] + s[1..] && p == [p[0]] + p[1..]; }
      }
    }
  }

  /** A pattern with a wildcard accepts a text with a letter the heartbeat's name lacks. */
  lemma {:induction false} WildcardAccepts(p: string) returns (t: string)
    requires HasWildcard(p) && !HasClass(p)
    ensures FnMatch(t, p) && '!' in t
  {
    GlobWithoutClass(p);
    if p[0] == '*' || p[0] == '?' {
      var rest := SomeMatch(p[1..]);
      t := "!" + rest;
      assert t[0] == '!' && t[1..] == rest;
      if p[0] == '*' { assert Matches(GlobTokens(p), rest); }
    } else {
      assert HasWildcard(p[1..]) by { assert p == [p[0]] + p[1..]; }
      var rest := WildcardAccepts(p[1..]);
      t := [p[0]] + rest;
      assert t[1..] == rest;
    }
  }

  lemma HeartbeatHasNoMark()
    ensures '!' !in Sse.HEARTBEAT
  {
  }

  lemma LiteralPattern(p: string, t: string)
    requires !HasWildcard(p) && !HasClass(p)
    ensures FnMatch(t, p) <==> t == p
  {
    LiteralTokens(p);
    LiteralsMatchOne(p, GlobTokens(p), t);
  }

  /** Of the portable patterns only the heartbeat's own name takes nothing but heartbeats. */
  lemma OnlyTheHeartbeatItself(pattern: Option<string>)
    requires Portable(pattern)
    ensures OnlyHeartbeats(pattern) <==> pattern == Some(Sse.HEARTBEAT)
  {
    FilterTranslationExact(pattern);
    if pattern.None? {
      assert "a" != Sse.HEARTBEAT && LiveAccepts(pattern, "a");
    } else if HasWildcard(pattern.value) {
      HeartbeatHasNoMark();
      HeartbeatIsPlain();
      var t := WildcardAccepts(pattern.value);
      assert t != Sse.HEARTBEAT && LiveAccepts(pattern, t);
    } else {
      forall t ensures LiveAccepts(pattern, t) <==> t == pattern.value { LiteralPattern(pattern.value, t); }
      assert LiveAccepts(pattern, pattern.value);
    }
  }

  lemma HeartbeatIsPlain()
    ensures !HasWildcard(Sse.HEARTBEAT)
  {
  }

  /** For every filter of a tenant's client, live delivery and catch-up agree exactly when the
      pattern is portable, and the data_uuid filter is not the empty text, which live delivery
      takes literally and catch-up ignores, unless the pattern takes only heartbeats. */
  lemma SubscriptionAgreesExactly(f: Sse.Filter)
    requires Sse.Present(f.company)
    ensures SubscriptionAgrees(f)
            <==> Portable(f.pattern) && (f.dataUuid != Some("") || f.pattern == Some(Sse.HEARTBEAT))
  {
    TypesAgreeExactly(f.pattern);
    if CatchupRuns(f.pattern) { TypesDecide(f); }
    if Portable(f.pattern) { OnlyTheHeartbeatItself(f.pattern); }
  }

  /** Without a pattern: the data_uuid filter decides. */
  lemma EmptyDataUuidDisagrees(f: Sse.Filter)
    requires Sse.Present(f.company) && f.pattern.None?
    ensures SubscriptionAgrees(f) <==> f.dataUuid != Some("")
  {
    SubscriptionAgreesExactly(f);
  }
}
