/** Searching the audit trail: the WHERE clauses built from a filter, and what they select. */
module AuditFilter {
  import opened Prelude
  import opened Escaping

  const LIKE_RULES := [Rule('\\', "\\\\"), Rule('%', "\\%"), Rule('_', "\\_")]

  function LikeEscape(text: string): string {
    ReplaceAll(text, LIKE_RULES)
  }

  // --- SQLite's LIKE ... ESCAPE '\' ---

  /** LIKE and COLLATE NOCASE ignore the case of ASCII letters only. */
  predicate SameText(a: string, b: string) {
    |a| == |b| && forall i :: 0 <= i < |a| ==> Fold(a[i]) == Fold(b[i])
  }

  /** `s LIKE pattern ESCAPE '\'`: `%` is any text, `_` any one character, an escaped character
      itself; a pattern that ends in the escape character matches nothing. */
  predicate Like(pattern: string, s: string)
    decreases |pattern|, |s|
  {
    if pattern == [] then s == []
    else if pattern[0] == '%' then Like(pattern[1..], s) || (s != [] && Like(pattern, s[1..]))
    else if s == [] then false
    else if pattern[0] == '_' then Like(pattern[1..], s[1..])
    else if pattern[0] == '\\' then
      |pattern| > 1 && Fold(pattern[1]) == Fold(s[0]) && Like(pattern[2..], s[1..])
    else Fold(pattern[0]) == Fold(s[0]) && Like(pattern[1..], s[1..])
  }

  predicate StartsWith(s: string, prefix: string) {
    |prefix| <= |s| && SameText(s[..|prefix|], prefix)
  }

  predicate OccursAt(s: string, q: string, k: nat) {
    k <= |s| && StartsWith(s[k..], q)
  }

  predicate Contains(s: string, q: string) {
    exists k | 0 <= k <= |s| :: OccursAt(s, q, k)
  }

  /** One escaped character matches that character and nothing else, whatever follows. */
  lemma EscapedStep(c: char, rest: string, s: string)
    ensures Like(Image(c, LIKE_RULES) + rest, s) <==> s != [] && Fold(s[0]) == Fold(c) && Like(rest, s[1..])
  {
    var p := Image(c, LIKE_RULES) + rest;
    if c in {'\\', '%', '_'} {
      assert Image(c, LIKE_RULES) == ['\\', c];
      assert p[0] == '\\' && p[1] == c && p[2..] == rest;
    } else {
      ImageCases(c, LIKE_RULES);
      assert p == [c] + rest;
      assert p[1..] == rest;
    }
  }

  /** An escaped text followed by any pattern matches exactly that text followed by a match. */
  lemma {:induction false} EscapedThen(text: string, rest: string, s: string)
    ensures Like(LikeEscape(text) + rest, s) <==> StartsWith(s, text) && Like(rest, s[|text|..])
    decreases |text|
  {
    ReplaceAllIsPerCharacter(text, LIKE_RULES);
    if text == [] {
      assert LikeEscape(text) + rest == rest;
      assert s[0..] == s;
    } else {
      var tail := LikeEscape(text[1..]) + rest;
      assert LikeEscape(text) + rest == Image(text[0], LIKE_RULES) + tail;
      EscapedStep(text[0], tail, s);
      if s != [] {
        EscapedThen(text[1..], rest, s[1..]);
        assert StartsWith(s, text) <==> Fold(s[0]) == Fold(text[0]) && StartsWith(s[1..], text[1..]) by {
          PrefixStep(s, text);
        }
        if |text| <= |s| {
          assert s[1..][|text| - 1..] == s[|text|..];
        }
      }
    }
  }

  lemma PrefixStep(s: string, text: string)
    requires s != [] && text != []
    ensures StartsWith(s, text) <==> Fold(s[0]) == Fold(text[0]) && StartsWith(s[1..], text[1..])
  {
    if |text| <= |s| {
      var a, b := s[..|text|], s[1..][..|text| - 1];
      assert forall i :: 0 < i < |text| ==> a[i] == b[i - 1] && text[i] == text[1..][i - 1];
      assert forall i :: 0 <= i < |text| - 1 ==> b[i] == a[i + 1] && text[1..][i] == text[i + 1];
      if Fold(s[0]) == Fold(text[0]) && SameText(b, text[1..]) {
        forall i | 0 <= i < |text|
          ensures Fold(a[i]) == Fold(text[i])
        {
          if i > 0 {
            assert Fold(b[i - 1]) == Fold(text[1..][i - 1]);
          }
        }
      }
    }
  }

  lemma {:induction false} PercentMatchesAll(s: string)
    ensures Like("%", s)
    decreases |s|
  {
    if s == [] {
      assert "%"[1..] == [];
    } else {
      PercentMatchesAll(s[1..]);
    }
  }

  /** A prefix filter is exact for every prefix, including ones that hold `%`, `_` or `\`. */
  lemma PrefixPatternExact(prefix: string, s: string)
    ensures Like(LikeEscape(prefix) + "%", s) <==> StartsWith(s, prefix)
  {
    EscapedThen(prefix, "%", s);
    if |prefix| <= |s| {
      PercentMatchesAll(s[|prefix|..]);
    }
  }

  lemma {:induction false} PercentSkips(rest: string, s: string)
    ensures Like("%" + rest, s) <==> exists k | 0 <= k <= |s| :: Like(rest, s[k..])
    decreases |s|
  {
    var p := "%" + rest;
    assert p[0] == '%' && p[1..] == rest && s[0..] == s;
    if s != [] {
      PercentSkips(rest, s[1..]);
      if Like(p, s[1..]) {
        var k :| 0 <= k <= |s[1..]| && Like(rest, s[1..][k..]);
        assert s[1..][k..] == s[k + 1..];
      }
      if exists k | 0 <= k <= |s| :: Like(rest, s[k..]) {
        var k :| 0 <= k <= |s| && Like(rest, s[k..]);
        if k > 0 {
          assert s[1..][k - 1..] == s[k..];
        }
      }
    }
  }

  /** A text filter is exact for every text: it matches wherever the text occurs, and only there. */
  lemma TextPatternExact(q: string, s: string)
    ensures Like("%" + LikeEscape(q) + "%", s) <==> Contains(s, q)
  {
    var rest := LikeEscape(q) + "%";
    assert "%" + LikeEscape(q) + "%" == "%" + rest;
    PercentSkips(rest, s);
    forall k | 0 <= k <= |s|
      ensures Like(rest, s[k..]) <==> OccursAt(s, q, k)
    {
      PrefixPatternExact(q, s[k..]);
    }
  }

  /** Without the escape the same filter is wrong: `a_c` would also select `abc`. */
  lemma UnescapedIsWrong()
    ensures Like("a_c%", "abc") && !StartsWith("abc", "a_c")
    ensures !Like(LikeEscape("a_c") + "%", "abc")
  {
    PrefixPatternExact("a_c", "abc");
    assert !SameText("abc"[..3], "a_c") by {
      assert Fold("abc"[1]) != Fold("a_c"[1]);
    }
    assert "a_c%"[1..] == "_c%" && "_c%"[1..] == "c%" && "c%"[1..] == "%";
    assert "abc"[1..] == "bc" && "bc"[1..] == "c" && "c"[1..] == [];
    PercentMatchesAll([]);
  }

  // --- the filter ---

  const DAY := 86400

  /** A bound in a filter: an ISO date, or a moment in seconds. */
  datatype Bound = Date(day: int) | Moment(at: int)

  datatype Filters = Filters(action: string, user: string, status: string,
                             since: Option<Bound>, until: Option<Bound>, q: string)

  datatype Event = Event(at: int, action: string, status: string, user: Option<string>, details: string)

  datatype Clause =
    | ActionLike(pattern: string)
    | ActionIs(action: string)
    | UserIs(user: string)
    | StatusIs(status: string)
    | NotBefore(from: int)
    | Before(to: int)
    | NotAfter(last: int)
    | TextLike(pattern: string)

  predicate Holds(clause: Clause, e: Event) {
    match clause
    case ActionLike(p) => Like(p, e.action)
    case ActionIs(a) => e.action == a
    case UserIs(u) => e.user.Some? && SameText(e.user.value, u)
    case StatusIs(s) => e.status == s
    case NotBefore(t) => t <= e.at
    case Before(t) => e.at < t
    case NotAfter(t) => e.at <= t
    case TextLike(p) => Like(p, e.action) || Like(p, e.details)
  }

  predicate AllHold(clauses: seq<Clause>, e: Event) {
    forall c :: c in clauses ==> Holds(c, e)
  }

  function Start(b: Bound): int {
    match b
    case Date(d) => d * DAY
    case Moment(t) => t
  }

  function ActionClause(action: string): seq<Clause> {
    if action == [] then []
    else if action[|action| - 1] == '*' then [ActionLike(LikeEscape(action[..|action| - 1]) + "%")]
    else [ActionIs(action)]
  }

  function UntilClause(until: Option<Bound>): seq<Clause> {
    match until
    case None => []
    case Some(Date(d)) => [Before((d + 1) * DAY)]
    case Some(Moment(t)) => [NotAfter(t)]
  }

  function TextClause(q: string): seq<Clause> {
    if q == [] then [] else [TextLike("%" + LikeEscape(q) + "%")]
  }

  /** The clauses of `Filters.where`, joined by AND. Empty fields add none. */
  function Where(f: Filters): seq<Clause> {
    ActionClause(f.action)
    + (if f.user == [] then [] else [UserIs(f.user)])
    + (if f.status == [] then [] else [StatusIs(f.status)])
    + (if f.since.None? then [] else [NotBefore(Start(f.since.value))])
    + UntilClause(f.until)
    + TextClause(f.q)
  }

  /** What the filter's fields are documented to select. */
  predicate Selects(f: Filters, e: Event) {
    && (f.action == [] || ActionSelected(f.action, e.action))
    && (f.user == [] || (e.user.Some? && SameText(e.user.value, f.user)))
    && (f.status == [] || e.status == f.status)
    && (f.since.Some? && f.since.value.Date? ==> f.since.value.day <= e.at / DAY)
    && (f.since.Some? && f.since.value.Moment? ==> f.since.value.at <= e.at)
    && (f.until.Some? && f.until.value.Date? ==> e.at / DAY <= f.until.value.day)
    && (f.until.Some? && f.until.value.Moment? ==> e.at <= f.until.value.at)
    && (f.q == [] || Contains(e.action, f.q) || Contains(e.details, f.q))
  }

  predicate ActionSelected(wanted: string, action: string)
    requires wanted != []
  {
    if wanted[|wanted| - 1] == '*' then StartsWith(action, wanted[..|wanted| - 1]) else action == wanted
  }

  lemma WholeDay(at: int, d: int)
    ensures at < (d + 1) * DAY <==> at / DAY <= d
    ensures d * DAY <= at <==> d <= at / DAY
  {
  }

  lemma AllHoldConcat(a: seq<Clause>, b: seq<Clause>, e: Event)
    ensures AllHold(a + b, e) <==> AllHold(a, e) && AllHold(b, e)
  {
    assert forall c :: c in a + b <==> c in a || c in b;
  }

  lemma SixHold(a: seq<Clause>, b: seq<Clause>, c: seq<Clause>, d: seq<Clause>, u: seq<Clause>, q: seq<Clause>,
                e: Event)
    ensures AllHold(a + b + c + d + u + q, e) <==>
            AllHold(a, e) && AllHold(b, e) && AllHold(c, e) && AllHold(d, e) && AllHold(u, e) && AllHold(q, e)
  {
    AllHoldConcat(a + b + c + d + u, q, e);
    AllHoldConcat(a + b + c + d, u, e);
    AllHoldConcat(a + b + c, d, e);
    AllHoldConcat(a + b, c, e);
    AllHoldConcat(a, b, e);
  }

  lemma ActionClauseExact(action: string, e: Event)
    ensures AllHold(ActionClause(action), e) <==> (action == [] || ActionSelected(action, e.action))
  {
    if action != [] {
      var c := ActionClause(action)[0];
      assert ActionClause(action) == [c] && c in ActionClause(action);
      if action[|action| - 1] == '*' {
        PrefixPatternExact(action[..|action| - 1], e.action);
      }
    }
  }

  lemma UntilClauseExact(until: Option<Bound>, e: Event)
    ensures AllHold(UntilClause(until), e) <==>
            && (until.Some? && until.value.Date? ==> e.at / DAY <= until.value.day)
            && (until.Some? && until.value.Moment? ==> e.at <= until.value.at)
  {
    if until.Some? {
      assert UntilClause(until)[0] in UntilClause(until);
      if until.value.Date? {
        WholeDay(e.at, until.value.day);
      }
    }
  }

  lemma OneClause(c: Clause, e: Event)
    ensures AllHold([c], e) <==> Holds(c, e)
  {
    assert c in [c];
  }

  lemma TextClauseExact(q: string, e: Event)
    ensures AllHold(TextClause(q), e) <==> q == [] || Contains(e.action, q) || Contains(e.details, q)
  {
    if q != [] {
      OneClause(TextLike("%" + LikeEscape(q) + "%"), e);
      TextPatternExact(q, e.action);
      TextPatternExact(q, e.details);
    }
  }

  /** The clauses built from a filter select exactly the events its fields describe. */
  lemma WhereIsExact(f: Filters, e: Event)
    ensures AllHold(Where(f), e) <==> Selects(f, e)
  {
    var a := ActionClause(f.action);
    var b := if f.user == [] then [] else [UserIs(f.user)];
    var c := if f.status == [] then [] else [StatusIs(f.status)];
    var d := if f.since.None? then [] else [NotBefore(Start(f.since.value))];
    var u := UntilClause(f.until);
    var q := TextClause(f.q);
    SixHold(a, b, c, d, u, q, e);
    ActionClauseExact(f.action, e);
    UntilClauseExact(f.until, e);
    TextClauseExact(f.q, e);
    if f.user != [] { OneClause(UserIs(f.user), e); }
    if f.status != [] { OneClause(StatusIs(f.status), e); }
    if f.since.Some? {
      OneClause(NotBefore(Start(f.since.value)), e);
      if f.since.value.Date? { WholeDay(e.at, f.since.value.day); }
    }
  }

  // --- bounds as the texts they are ---

  /** `a < b` for texts, as SQLite compares them. */
  predicate TextLess(a: string, b: string)
    decreases |a|
  {
    b != [] && (a == [] || a[0] < b[0] || (a[0] == b[0] && TextLess(a[1..], b[1..])))
  }

  /** An entry stamped in the second that an `until` moment names carries more text, an offset at least, and
      is left out although the bound is meant to include it: it is selected only if nothing follows. */
  lemma {:induction false} MomentMissesItsOwnSecond(until: string, more: string)
    ensures !TextLess(until, until + more) <==> more == ""
    decreases |until|
  {
    if until == "" {
      assert until + more == more;
    } else {
      assert (until + more)[1..] == until[1..] + more;
      MomentMissesItsOwnSecond(until[1..], more);
    }
  }

  /** A bare date compares with the day of a stamp, whatever time of that day follows. */
  lemma {:induction false} DateBoundComparesDays(stamp: string, day: string)
    requires |day| <= |stamp|
    ensures TextLess(stamp, day) <==> TextLess(stamp[..|day|], day)
    decreases |day|
  {
    if day != "" {
      assert stamp[..|day|][1..] == stamp[1..][..|day| - 1];
      DateBoundComparesDays(stamp[1..], day[1..]);
    }
  }
}
