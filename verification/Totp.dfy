/** Two-factor authentication: codes valid in a time step, steps and recovery codes that are used at
    most once, whatever requests run at the same time on rows they read earlier. */
module Totp {
  import opened Prelude

  const DIGITS := 6
  const PERIOD := 30
  const DRIFT_STEPS := 1

  /** HMAC-SHA1 of a step under a secret: any 20 bytes. */
  type Digest = d: seq<byte> | |d| == 20 witness seq(20, _ => 0)

  type Secret = nat
  type Mac = (Secret, int) -> Digest

  function Pow10(k: nat): (n: nat)
    ensures n >= 1
  {
    if k == 0 then 1 else 10 * Pow10(k - 1)
  }

  /** The last `k` decimal digits, with leading zeros. */
  function Digits(v: nat, k: nat): (s: string)
    ensures |s| == k
  {
    if k == 0 then "" else Digits(v / 10, k - 1) + ['0' + (v % 10) as char]
  }

  function NumberOf(s: string): nat
    requires IsDigits(s)
    decreases |s|
  {
    if s == "" then 0 else NumberOf(s[..|s| - 1]) * 10 + (s[|s| - 1] - '0') as nat
  }

  predicate IsDigit(c: char) {
    '0' <= c <= '9'
  }

  predicate IsDigits(s: string) {
    forall i :: 0 <= i < |s| ==> IsDigit(s[i])
  }

  /** Dynamic truncation, section 5.3 of RFC 4226: 31 bits from the offset the last byte names. */
  function Truncated(d: Digest): (v: nat)
    ensures v < 0x8000_0000
  {
    var offset := d[19] as nat % 16;
    (d[offset] as nat % 128) * 0x100_0000 + d[offset + 1] as nat * 0x1_0000
    + d[offset + 2] as nat * 0x100 + d[offset + 3] as nat
  }

  function CodeAt(mac: Mac, secret: Secret, step: int): string {
    Digits(Truncated(mac(secret, step)), DIGITS)
  }

  lemma {:induction false} DigitsValue(v: nat, k: nat)
    ensures IsDigits(Digits(v, k)) && NumberOf(Digits(v, k)) == v % Pow10(k)
    decreases k
  {
    if k > 0 {
      DigitsValue(v / 10, k - 1);
      var front := Digits(v / 10, k - 1);
      assert Digits(v, k)[..k - 1] == front;
      ModuloStep(v, Pow10(k - 1));
    }
  }

  lemma ModuloStep(v: nat, p: nat)
    requires p >= 1
    ensures v % (10 * p) == (v / 10) % p * 10 + v % 10
  {
    var q, r := v / 10 / p, v / 10 % p;
    assert v / 10 == q * p + r;
    assert v == q * (10 * p) + (r * 10 + v % 10);
    assert 0 <= r * 10 + v % 10 < 10 * p;
    RemainderIs(v, 10 * p, q, r * 10 + v % 10);
  }

  lemma Multiples(n: nat, k: int)
    ensures k >= 1 ==> n * k >= n
    ensures k <= -1 ==> n * k + n <= 0
  {
  }

  lemma RemainderIs(v: nat, n: nat, q: nat, r: nat)
    requires n > 0 && v == q * n + r && r < n
    ensures v % n == r
  {
    var w := v / n;
    assert n * (w - q) == r - v % n;
    Multiples(n, w - q);
  }

  /** Every code is six digits and stands for the truncated digest modulo a million. */
  lemma CodeIsSixDigits(mac: Mac, secret: Secret, step: int)
    ensures var code := CodeAt(mac, secret, step);
            |code| == 6 && IsDigits(code) && NumberOf(code) == Truncated(mac(secret, step)) % 1_000_000
  {
    DigitsValue(Truncated(mac(secret, step)), DIGITS);
    assert Pow10(6) == 1_000_000;
  }

  /** The example of section 5.4 of RFC 4226. */
  lemma StandardExample(d: Digest)
    requires d == [0x1f, 0x86, 0x98, 0x69, 0x0e, 0x02, 0xca, 0x16, 0x61, 0x85, 0x50, 0xef, 0x7f, 0x19, 0xda, 0x8e,
                   0x94, 0x5b, 0x55, 0x5a]
    ensures Truncated(d) == 0x50ef7f19 && Truncated(d) % 1_000_000 == 872921
  {
  }

  // --- the code a user types ---

  predicate IsSpace(c: char) {
    c == ' ' || '\t' <= c <= '\r'
  }

  predicate IsAlnum(c: char) {
    IsDigit(c) || 'a' <= c <= 'z'
  }

  /** `"".join(code.split())` */
  function Squeezed(code: string): string {
    if code == "" then "" else (if IsSpace(code[0]) then "" else [code[0]]) + Squeezed(code[1..])
  }

  /** Lower case letters and digits only. */
  function Normalized(code: string): string {
    if code == "" then "" else (if IsAlnum(Fold(code[0])) then [Fold(code[0])] else "") + Normalized(code[1..])
  }

  lemma Joined(a: string, b: string, c: string)
    ensures a + (b + c) == a + b + c
  {
  }

  lemma {:induction false} NormalizedConcat(a: string, b: string)
    ensures Normalized(a + b) == Normalized(a) + Normalized(b)
  {
    if a == "" {
      assert a + b == b;
    } else {
      var head := if IsAlnum(Fold(a[0])) then [Fold(a[0])] else "";
      assert (a + b)[1..] == a[1..] + b && (a + b)[0] == a[0];
      NormalizedConcat(a[1..], b);
      Joined(head, Normalized(a[1..]), Normalized(b));
    }
  }

  lemma {:induction false} SqueezedConcat(a: string, b: string)
    ensures Squeezed(a + b) == Squeezed(a) + Squeezed(b)
  {
    if a == "" {
      assert a + b == b;
    } else {
      assert (a + b)[1..] == a[1..] + b && (a + b)[0] == a[0];
      SqueezedConcat(a[1..], b);
      Joined(if IsSpace(a[0]) then "" else [a[0]], Squeezed(a[1..]), Squeezed(b));
    }
  }

  /** What one character typed counts for: nothing for white space; in a recovery code, nothing unless it is a
      letter or a digit, and a capital is its small letter. */
  lemma OneCharacter(c: char)
    ensures Squeezed([c]) == if c in {' ', '\t', '\n', '\r', '\U{0B}', '\U{0C}'} then "" else [c]
    ensures 'a' <= c <= 'z' || '0' <= c <= '9' ==> Normalized([c]) == [c]
    ensures 'A' <= c <= 'Z' ==> Normalized([c]) == [c - 'A' + 'a']
    ensures !('a' <= c <= 'z' || '0' <= c <= '9' || 'A' <= c <= 'Z') ==> Normalized([c]) == ""
  {
    assert [c][1..] == "";
  }

  lemma {:induction false} PlainIsNormal(code: string)
    requires forall i :: 0 <= i < |code| ==> IsAlnum(code[i])
    ensures Normalized(code) == code
  {
    if code != "" {
      PlainIsNormal(code[1..]);
    }
  }

  /** A recovery code is shown as five characters, a hyphen and five more; what is typed like that is that code. */
  lemma ShownIsTyped(raw: string)
    requires |raw| == 10 && forall i :: 0 <= i < 10 ==> IsAlnum(raw[i])
    ensures Normalized(raw[..5] + "-" + raw[5..]) == raw && LooksLikeRecoveryCode(raw[..5] + "-" + raw[5..])
  {
    NormalizedConcat(raw[..5] + "-", raw[5..]);
    NormalizedConcat(raw[..5], "-");
    OneCharacter('-');
    PlainIsNormal(raw[..5]);
    PlainIsNormal(raw[5..]);
    assert raw[..5] + "" + raw[5..] == raw;
  }

  predicate LooksLikeRecoveryCode(code: string) {
    |Normalized(code)| == 10
  }

  predicate LooksLikeTotp(code: string) {
    |Squeezed(code)| == DIGITS && IsDigits(Squeezed(code))
  }

  lemma {:induction false} DigitsSurvive(code: string)
    requires IsDigits(Squeezed(code))
    ensures Normalized(code) == Squeezed(code)
    decreases |code|
  {
    if code != "" {
      var rest := Squeezed(code[1..]);
      if IsSpace(code[0]) {
        assert Squeezed(code) == rest;
      } else {
        assert Squeezed(code)[0] == code[0] && Squeezed(code)[1..] == rest;
        assert IsDigit(code[0]);
        assert forall i :: 0 <= i < |rest| ==> rest[i] == Squeezed(code)[i + 1];
      }
      DigitsSurvive(code[1..]);
    }
  }

  /** No text is taken for both kinds of code. */
  lemma KindsAreDisjoint(code: string)
    ensures !(LooksLikeRecoveryCode(code) && LooksLikeTotp(code))
  {
    if LooksLikeTotp(code) {
      DigitsSurvive(code);
    }
  }

  // --- matching ---

  predicate Unused(last: Option<int>, step: int) {
    last.None? || last.value < step
  }

  /** The code is this step's, and the step was not used. */
  predicate Fits(mac: Mac, secret: Secret, code: string, last: Option<int>, step: int) {
    LooksLikeTotp(code) && Unused(last, step) && CodeAt(mac, secret, step) == Squeezed(code)
  }

  function CurrentStep(now: int): int {
    now / PERIOD
  }

  function MatchingFrom(mac: Mac, secret: Secret, code: string, last: Option<int>, from: int, end: int): Option<int>
    decreases end - from
  {
    if from >= end then None
    else if Fits(mac, secret, code, last, from) then Some(from)
    else MatchingFrom(mac, secret, code, last, from + 1, end)
  }

  function MatchingStep(mac: Mac, secret: Secret, code: string, last: Option<int>, now: int): Option<int> {
    MatchingFrom(mac, secret, code, last, CurrentStep(now) - DRIFT_STEPS, CurrentStep(now) + DRIFT_STEPS + 1)
  }

  predicate Near(step: int, now: int) {
    now / PERIOD - 1 <= step <= now / PERIOD + 1
  }

  /** The least step within one of now whose code matches and which was not used; none if there is none. */
  lemma MatchingStepIsLeast(mac: Mac, secret: Secret, code: string, last: Option<int>, now: int)
    ensures var r := MatchingStep(mac, secret, code, last, now);
            && (r.Some? ==> Near(r.value, now) && Fits(mac, secret, code, last, r.value))
            && (forall step :: Near(step, now) && Fits(mac, secret, code, last, step) ==> r.Some? && r.value <= step)
  {
    var s := CurrentStep(now);
    assert MatchingFrom(mac, secret, code, last, s + 2, s + 2) == None;
    assert MatchingFrom(mac, secret, code, last, s + 1, s + 2) ==
           if Fits(mac, secret, code, last, s + 1) then Some(s + 1) else None;
    assert MatchingFrom(mac, secret, code, last, s, s + 2) ==
           if Fits(mac, secret, code, last, s) then Some(s) else MatchingFrom(mac, secret, code, last, s + 1, s + 2);
    assert forall step :: Near(step, now) ==> step == s - 1 || step == s || step == s + 1;
  }

  /** The loop over the steps near now. */
  method FindMatchingStep(mac: Mac, secret: Secret, code: string, last: Option<int>, now: int) returns (r: Option<int>)
    ensures r == MatchingStep(mac, secret, code, last, now)
    ensures r.Some? ==> Near(r.value, now) && Fits(mac, secret, code, last, r.value)
    ensures forall step :: Near(step, now) && Fits(mac, secret, code, last, step) ==> r.Some? && r.value <= step
  {
    MatchingStepIsLeast(mac, secret, code, last, now);
    var squeezed := Squeezed(code);
    if |squeezed| != DIGITS || !IsDigits(squeezed) {
      return None;
    }
    var step := CurrentStep(now);
    var candidate := step - DRIFT_STEPS;
    while candidate < step + DRIFT_STEPS + 1
      invariant candidate <= step + DRIFT_STEPS + 1
      invariant MatchingFrom(mac, secret, code, last, candidate, step + DRIFT_STEPS + 1) ==
                MatchingStep(mac, secret, code, last, now)
    {
      if Unused(last, candidate) && CodeAt(mac, secret, candidate) == squeezed {
        return Some(candidate);
      }
      candidate := candidate + 1;
    }
    r := None;
  }

  // --- a user's row ---

  /** The hash of a recovery code, as its own constructor. */
  datatype Hash = Hash(normalized: string)

  datatype Row = Row(enabled: bool, secret: Option<Secret>, last: Option<int>, recovery: seq<Hash>)

  function Claimed(r: Row, step: int): Row {
    if Unused(r.last, step) then r.(last := Some(step)) else r
  }

  /** `list.remove`: the first occurrence. */
  function RemoveFirst(codes: seq<Hash>, h: Hash): seq<Hash>
    decreases |codes|
  {
    if codes == [] then [] else if codes[0] == h then codes[1..] else [codes[0]] + RemoveFirst(codes[1..], h)
  }

  lemma {:induction false} RemoveFirstTakesOne(codes: seq<Hash>, h: Hash)
    requires h in codes
    ensures multiset(codes) == multiset(RemoveFirst(codes, h)) + multiset{h}
    decreases |codes|
  {
    assert codes == [codes[0]] + codes[1..];
    if codes[0] != h {
      RemoveFirstTakesOne(codes[1..], h);
    }
  }

  /** What a second factor comes to: `user` is the row as the request read it, `row` as it is when the
      request writes. */
  datatype Verdict = Refused | ByTotp(step: int) | ByRecovery(h: Hash)

  function Decide(mac: Mac, row: Row, user: Row, code: string, now: int): Verdict {
    if !user.enabled || user.secret.None? then Refused
    else if LooksLikeRecoveryCode(code) then
      var h := Hash(Normalized(code));
      if h in row.recovery then ByRecovery(h) else Refused
    else
      var step := MatchingStep(mac, user.secret.value, code, user.last, now);
      if step.Some? && Unused(row.last, step.value) then ByTotp(step.value) else Refused
  }

  function Used(row: Row, v: Verdict): Row {
    match v
    case Refused => row
    case ByTotp(step) => Claimed(row, step)
    case ByRecovery(h) => row.(recovery := RemoveFirst(row.recovery, h))
  }

  /** A step accepted was near, matched the secret the request read, and was used neither when it read
      nor when it wrote; and an authenticator code is accepted whenever it fits an unused step of a row
      that did not change meanwhile. */
  lemma AcceptedExactly(mac: Mac, row: Row, user: Row, code: string, now: int)
    ensures var v := Decide(mac, row, user, code, now);
            v.ByTotp? ==> (user.enabled && user.secret.Some? && Near(v.step, now)
              && Fits(mac, user.secret.value, code, user.last, v.step) && Unused(row.last, v.step))
    ensures user == row && user.enabled && user.secret.Some? ==>
              forall step :: Near(step, now) && Fits(mac, user.secret.value, code, user.last, step) ==>
                Decide(mac, row, user, code, now).ByTotp?
  {
    KindsAreDisjoint(code);
    if user.secret.Some? {
      MatchingStepIsLeast(mac, user.secret.value, code, user.last, now);
    }
  }

  predicate LaterThan(step: int, last: Option<int>) {
    last.Some? ==> step > last.value
  }

  /** What is typed, its spaces left out, is the six digit code of this step under the secret of an enabled user;
      the step is at most one away from now and later than the last one the user's row has. */
  ghost predicate Answered(mac: Mac, user: Row, code: string, now: int, step: int) {
    && user.enabled && user.secret.Some? && LaterThan(step, user.last) && now / 30 - 1 <= step <= now / 30 + 1
    && |Squeezed(code)| == 6 && Squeezed(code) == CodeAt(mac, user.secret.value, step)
  }

  ghost predicate FirstAnswered(mac: Mac, user: Row, code: string, now: int, step: int) {
    Answered(mac, user, code, now, step) && forall other :: Answered(mac, user, code, now, other) ==> step <= other
  }

  /** The verdict in terms of what was typed. A text of ten letters and digits is a recovery code and passes if
      and only if it is one of the user's; any other passes if and only if it answers a step, and the first one
      it answers is still unused when the request writes. */
  lemma Decides(mac: Mac, row: Row, user: Row, code: string, now: int)
    ensures var v := Decide(mac, row, user, code, now);
            if |Normalized(code)| == 10 then
              && !v.ByTotp? && (v.ByRecovery? ==> v.h == Hash(Normalized(code)))
              && (v.ByRecovery? <==> user.enabled && user.secret.Some? && Hash(Normalized(code)) in row.recovery)
            else
              !v.ByRecovery? && forall step ::
                v == ByTotp(step) <==> FirstAnswered(mac, user, code, now, step) && LaterThan(step, row.last)
  {
    if user.enabled && user.secret.Some? && |Normalized(code)| != 10 {
      MatchingStepIsLeast(mac, user.secret.value, code, user.last, now);
      forall step
        ensures Answered(mac, user, code, now, step) <==>
                Near(step, now) && Fits(mac, user.secret.value, code, user.last, step)
      {
        CodeIsSixDigits(mac, user.secret.value, step);
      }
    }
  }

  // --- every interleaving ---

  /** What requests do to a row. A check or an enrolment decides on a row it read earlier, `read`
      counting back in the past of the row, and only then writes. */
  datatype Event =
    | Check(read: nat, code: string, now: int)
    | SetPending(secret: Secret)
    | Enable(read: nat, code: string, now: int, codes: seq<Hash>)
    | Disable
    | Regenerate(codes: seq<Hash>)

  datatype Accepted = Accepted(era: nat, step: int)

  /** The row; every row there was; the steps accepted, each in the enrolment it was accepted in; the
      recovery codes last issued and those of them used. */
  datatype System = System(row: Row, past: seq<Row>, era: nat, accepted: seq<Accepted>, issued: seq<Hash>,
                           spent: multiset<Hash>)

  function Write(s: System, row: Row): System {
    s.(row := row, past := s.past + [row])
  }

  /** The row a request read: one of the past, the present one if it read nothing older. */
  function Read(s: System, back: nat): Row {
    if back < |s.past| then s.past[|s.past| - 1 - back] else s.row
  }

  function CheckStep(mac: Mac, s: System, read: nat, code: string, now: int): System {
    var v := Decide(mac, s.row, Read(s, read), code, now);
    match v
    case Refused => s
    case ByTotp(step) => Write(s, Used(s.row, v)).(accepted := s.accepted + [Accepted(s.era, step)])
    case ByRecovery(h) => Write(s, Used(s.row, v)).(spent := s.spent + multiset{h})
  }

  /** The step that confirms an enrolment, if its code matches the pending secret the request read. */
  function Confirmation(mac: Mac, user: Row, code: string, now: int): Option<int> {
    if user.enabled || user.secret.None? then None else MatchingStep(mac, user.secret.value, code, None, now)
  }

  function EnableStep(mac: Mac, s: System, read: nat, code: string, now: int, codes: seq<Hash>): System {
    var step := Confirmation(mac, Read(s, read), code, now);
    if step.None? then s
    else
      Write(s, s.row.(enabled := true, last := step, recovery := codes))
        .(era := s.era + 1, accepted := s.accepted + [Accepted(s.era + 1, step.value)],
          issued := codes, spent := multiset{})
  }

  function Next(mac: Mac, s: System, e: Event): System {
    match e
    case Check(read, code, now) => CheckStep(mac, s, read, code, now)
    case SetPending(secret) => if s.row.enabled then s else Write(s, s.row.(secret := Some(secret)))
    case Enable(read, code, now, codes) => EnableStep(mac, s, read, code, now, codes)
    case Disable => Write(s, Row(false, None, None, [])).(era := s.era + 1, issued := [], spent := multiset{})
    case Regenerate(codes) => Write(s, s.row.(recovery := codes)).(issued := codes, spent := multiset{})
  }

  function Run(mac: Mac, s: System, events: seq<Event>): System
    decreases |events|
  {
    if events == [] then s else Run(mac, Next(mac, s, events[0]), events[1..])
  }

  const FIRST := Row(false, None, None, [])

  function Begin(): System {
    System(FIRST, [FIRST], 0, [], [], multiset{})
  }

  /** Within an enrolment the steps accepted strictly increase. */
  ghost predicate Increasing(accepted: seq<Accepted>) {
    forall i, j :: 0 <= i < j < |accepted| && accepted[i].era == accepted[j].era ==> accepted[i].step < accepted[j].step
  }

  ghost predicate StepsKept(s: System) {
    && Increasing(s.accepted)
    && forall i :: 0 <= i < |s.accepted| ==>
         && s.accepted[i].era <= s.era
         && (s.accepted[i].era == s.era ==> s.row.last.Some? && s.accepted[i].step <= s.row.last.value)
  }

  ghost predicate CodesKept(s: System) {
    multiset(s.issued) == multiset(s.row.recovery) + s.spent
  }

  lemma NextKeepsSteps(mac: Mac, s: System, e: Event)
    requires StepsKept(s)
    ensures StepsKept(Next(mac, s, e))
  {
  }

  lemma NextKeepsCodes(mac: Mac, s: System, e: Event)
    requires CodesKept(s)
    ensures CodesKept(Next(mac, s, e))
  {
    if e.Check? {
      var v := Decide(mac, s.row, Read(s, e.read), e.code, e.now);
      if v.ByRecovery? {
        RemoveFirstTakesOne(s.row.recovery, v.h);
      }
    }
  }

  lemma {:induction false} RunKeeps(mac: Mac, s: System, events: seq<Event>)
    requires StepsKept(s) && CodesKept(s)
    ensures StepsKept(Run(mac, s, events)) && CodesKept(Run(mac, s, events))
    decreases |events|
  {
    if events != [] {
      NextKeepsSteps(mac, s, events[0]);
      NextKeepsCodes(mac, s, events[0]);
      RunKeeps(mac, Next(mac, s, events[0]), events[1..]);
    }
  }

  /** No step is accepted twice in an enrolment and no recovery code is used more often than it was issued,
      whatever checks ran at the same time on whatever old rows. */
  lemma SingleUse(mac: Mac, events: seq<Event>)
    ensures var s := Run(mac, Begin(), events);
            && Increasing(s.accepted)
            && multiset(s.issued) == multiset(s.row.recovery) + s.spent
  {
    RunKeeps(mac, Begin(), events);
  }

  // --- what was accepted was typed ---

  /** Some check typed a recovery code with this hash. */
  ghost predicate CodeTyped(events: seq<Event>, h: Hash) {
    exists i :: 0 <= i < |events| && events[i].Check? && h == Hash(Normalized(events[i].code))
  }

  /** Some check or enrolment, within a step of this one, typed its code under a secret that was set before. */
  ghost predicate StepTyped(mac: Mac, events: seq<Event>, step: int) {
    exists i, j :: 0 <= j < i < |events| && events[j].SetPending? && TypesStep(mac, events[i], events[j].secret, step)
  }

  predicate TypesStep(mac: Mac, e: Event, secret: Secret, step: int) {
    && (e.Check? || e.Enable?) && e.now / 30 - 1 <= step <= e.now / 30 + 1
    && |Squeezed(e.code)| == 6 && Squeezed(e.code) == CodeAt(mac, secret, step)
  }

  ghost predicate SecretSet(events: seq<Event>, row: Row) {
    row.secret.Some? ==> SetPending(row.secret.value) in events
  }

  /** Every secret there is or was has been set. */
  ghost predicate SecretsSet(events: seq<Event>, s: System) {
    SecretSet(events, s.row) && forall k :: 0 <= k < |s.past| ==> SecretSet(events, s.past[k])
  }

  ghost predicate AllTyped(mac: Mac, events: seq<Event>, s: System) {
    && (forall h :: h in s.spent ==> CodeTyped(events, h))
    && (forall i :: 0 <= i < |s.accepted| ==> StepTyped(mac, events, s.accepted[i].step))
    && SecretsSet(events, s)
  }

  lemma MoreTyped(mac: Mac, events: seq<Event>, e: Event, s: System)
    requires AllTyped(mac, events, s)
    ensures AllTyped(mac, events + [e], s)
  {
    var more := events + [e];
    assert forall i :: 0 <= i < |events| ==> more[i] == events[i];
    forall h | h in s.spent
      ensures CodeTyped(more, h)
    {
      assert CodeTyped(events, h);
    }
    forall i | 0 <= i < |s.accepted|
      ensures StepTyped(mac, more, s.accepted[i].step)
    {
      assert StepTyped(mac, events, s.accepted[i].step);
    }
  }

  lemma ReadSecret(events: seq<Event>, s: System, back: nat)
    requires SecretsSet(events, s) && Read(s, back).secret.Some?
    ensures SetPending(Read(s, back).secret.value) in events
  {
    if back < |s.past| {
      assert SecretSet(events, s.past[|s.past| - 1 - back]);
    }
  }

  lemma WriteSecret(events: seq<Event>, s: System, row: Row)
    requires SecretsSet(events, s) && SecretSet(events, row)
    ensures SecretsSet(events, Write(s, row))
  {
    var t := Write(s, row);
    forall k | 0 <= k < |t.past|
      ensures SecretSet(events, t.past[k])
    {
      assert k < |s.past| ==> t.past[k] == s.past[k];
    }
  }

  /** What the last event typed, if its step was accepted. */
  lemma NowTyped(mac: Mac, events: seq<Event>, e: Event, secret: Secret, step: int)
    requires SetPending(secret) in events && TypesStep(mac, e, secret, step)
    ensures StepTyped(mac, events + [e], step)
  {
    var j :| 0 <= j < |events| && events[j] == SetPending(secret);
    assert (events + [e])[j] == events[j] && (events + [e])[|events|] == e;
  }

  lemma CheckTypes(mac: Mac, events: seq<Event>, s: System, read: nat, code: string, now: int)
    requires AllTyped(mac, events, s)
    ensures var e := Check(read, code, now); var t := Next(mac, s, e);
            && (forall h :: h in t.spent && h !in s.spent ==> CodeTyped(events + [e], h))
            && (forall i :: |s.accepted| <= i < |t.accepted| ==> StepTyped(mac, events + [e], t.accepted[i].step))
  {
    var e := Check(read, code, now);
    var user, v := Read(s, read), Decide(mac, s.row, Read(s, read), code, now);
    assert (events + [e])[|events|] == e;
    Decides(mac, s.row, user, code, now);
    if v.ByTotp? {
      ReadSecret(events, s, read);
      NowTyped(mac, events, e, user.secret.value, v.step);
    } else if v.ByRecovery? {
      assert CodeTyped(events + [e], v.h);
    }
  }

  lemma EnableTypes(mac: Mac, events: seq<Event>, s: System, e: Event)
    requires AllTyped(mac, events, s) && e.Enable?
    ensures var t := Next(mac, s, e);
            forall i :: |s.accepted| <= i < |t.accepted| ==> StepTyped(mac, events + [e], t.accepted[i].step)
  {
    var user := Read(s, e.read);
    var step := Confirmation(mac, user, e.code, e.now);
    if step.Some? {
      MatchingStepIsLeast(mac, user.secret.value, e.code, None, e.now);
      CodeIsSixDigits(mac, user.secret.value, step.value);
      ReadSecret(events, s, e.read);
      NowTyped(mac, events, e, user.secret.value, step.value);
    }
  }

  lemma StepSecrets(mac: Mac, events: seq<Event>, e: Event, s: System)
    requires SecretsSet(events, s) && e in events
    ensures SecretsSet(events, Next(mac, s, e))
  {
    var row := Next(mac, s, e).row;
    if SecretSet(events, row) {
      WriteSecret(events, s, row);
    }
  }

  lemma StepTypes(mac: Mac, events: seq<Event>, e: Event, s: System)
    requires AllTyped(mac, events, s)
    ensures AllTyped(mac, events + [e], Next(mac, s, e))
  {
    MoreTyped(mac, events, e, s);
    StepSecrets(mac, events + [e], e, s);
    if e.Check? {
      CheckTypes(mac, events, s, e.read, e.code, e.now);
    } else if e.Enable? {
      EnableTypes(mac, events, s, e);
    }
  }

  lemma {:induction false} RunTypes(mac: Mac, earlier: seq<Event>, s: System, events: seq<Event>)
    requires AllTyped(mac, earlier, s)
    ensures AllTyped(mac, earlier + events, Run(mac, s, events))
    decreases |events|
  {
    if events == [] {
      assert earlier + events == earlier;
    } else {
      StepTypes(mac, earlier, events[0], s);
      assert earlier + events == earlier + [events[0]] + events[1..];
      RunTypes(mac, earlier + [events[0]], Next(mac, s, events[0]), events[1..]);
    }
  }

  /** Over every run: each recovery code used was typed in some check, and for each step accepted its code was
      typed within a step of it, under a secret an enrolment had set. */
  lemma AcceptedWasTyped(mac: Mac, events: seq<Event>)
    ensures var s := Run(mac, Begin(), events);
            && (forall h :: h in s.spent ==> CodeTyped(events, h))
            && forall i :: 0 <= i < |s.accepted| ==> StepTyped(mac, events, s.accepted[i].step)
  {
    RunTypes(mac, [], Begin(), events);
    assert [] + events == events;
  }

  // --- as the handlers run ---

  ghost predicate NoDisable(events: seq<Event>) {
    forall i :: 0 <= i < |events| ==> !events[i].Disable?
  }

  /** The row's past ends with the row. */
  ghost predicate Current(s: System) {
    s.past != [] && s.past[|s.past| - 1] == s.row
  }

  lemma NextCurrent(mac: Mac, s: System, e: Event)
    requires Current(s)
    ensures Current(Next(mac, s, e)) && s.accepted <= Next(mac, s, e).accepted
  {
  }

  lemma {:induction false} RunCurrent(mac: Mac, s: System, events: seq<Event>)
    requires Current(s)
    ensures Current(Run(mac, s, events)) && s.accepted <= Run(mac, s, events).accepted
    decreases |events|
  {
    if events != [] {
      var u := Next(mac, s, events[0]);
      NextCurrent(mac, s, events[0]);
      RunCurrent(mac, u, events[1..]);
      assert s.accepted <= u.accepted <= Run(mac, u, events[1..]).accepted;
    }
  }

  /** An enrolment decides on the row as it is, as every request does that has the event loop to itself. A
      check may still have read an older row, unless the row is off by now. */
  predicate Timely(s: System, e: Event) {
    (e.Enable? ==> e.read == 0) && (e.Check? ==> e.read == 0 || s.row.enabled)
  }

  predicate AllTimely(mac: Mac, s: System, events: seq<Event>)
    decreases |events|
  {
    events == [] || (Timely(s, events[0]) && AllTimely(mac, Next(mac, s, events[0]), events[1..]))
  }

  /** While a row is enabled an enrolment that reads it as it is changes nothing, and only a timely check of
      an enabled row, or the enrolment that enables it, accepts a step. */
  lemma TimelyStep(mac: Mac, s: System, e: Event)
    requires Current(s) && Timely(s, e) && !e.Disable?
    ensures var t := Next(mac, s, e);
            && (s.row.enabled ==> t.row.enabled && t.era == s.era && (e.Enable? ==> t == s))
            && (t.accepted != s.accepted ==>
                  t.row.enabled && |t.accepted| == |s.accepted| + 1 && t.accepted[|s.accepted|].era == t.era)
  {
    var t := Next(mac, s, e);
    assert t.accepted != s.accepted ==> |t.accepted| == |s.accepted| + 1;
  }

  lemma {:induction false} OneEra(mac: Mac, s: System, events: seq<Event>)
    requires Current(s) && NoDisable(events) && AllTimely(mac, s, events)
    ensures var t := Run(mac, s, events);
            && s.accepted <= t.accepted && (s.row.enabled ==> t.era == s.era)
            && forall i :: |s.accepted| <= i < |t.accepted| ==> t.accepted[i].era == t.era
    decreases |events|
  {
    if events != [] {
      var u := Next(mac, s, events[0]);
      TimelyStep(mac, s, events[0]);
      NextCurrent(mac, s, events[0]);
      RunCurrent(mac, u, events[1..]);
      assert forall i :: 0 <= i < |events| - 1 ==> events[1..][i] == events[i + 1];
      OneEra(mac, u, events[1..]);
      var t := Run(mac, u, events[1..]);
      assert s.accepted <= u.accepted <= t.accepted;
      assert forall i :: 0 <= i < |u.accepted| ==> t.accepted[i] == u.accepted[i];
    }
  }

  /** Between two disablings every step accepted, the enrolment's own included, is later than the one before,
      whatever went on earlier. */
  lemma StepsIncreaseBetweenDisablings(mac: Mac, earlier: seq<Event>, events: seq<Event>, i: nat, j: nat)
    requires NoDisable(events) && AllTimely(mac, Run(mac, Begin(), earlier), events)
    requires var s := Run(mac, Begin(), earlier);
             |s.accepted| <= i < j < |Run(mac, s, events).accepted|
    ensures var accepted := Run(mac, Run(mac, Begin(), earlier), events).accepted;
            accepted[i].step < accepted[j].step
  {
    var s := Run(mac, Begin(), earlier);
    RunKeeps(mac, Begin(), earlier);
    RunKeeps(mac, s, events);
    RunCurrent(mac, Begin(), earlier);
    OneEra(mac, s, events);
  }

  lemma {:induction false} DigitsAreSqueezed(code: string)
    requires IsDigits(code)
    ensures Squeezed(code) == code
    decreases |code|
  {
    if code != "" {
      assert forall i :: 0 <= i < |code| - 1 ==> code[1..][i] == code[i + 1];
      DigitsAreSqueezed(code[1..]);
      assert Squeezed(code) == [code[0]] + Squeezed(code[1..]) == [code[0]] + code[1..] == code;
    }
  }

  lemma CodeMatches(mac: Mac, secret: Secret, step: int, last: Option<int>, now: int)
    requires Near(step, now) && Unused(last, step)
    requires forall other :: Near(other, now) && other < step ==>
      !Unused(last, other) || CodeAt(mac, secret, other) != CodeAt(mac, secret, step)
    ensures MatchingStep(mac, secret, CodeAt(mac, secret, step), last, now) == Some(step)
    ensures !LooksLikeRecoveryCode(CodeAt(mac, secret, step))
  {
    var code := CodeAt(mac, secret, step);
    CodeIsSixDigits(mac, secret, step);
    DigitsAreSqueezed(code);
    KindsAreDisjoint(code);
    MatchingStepIsLeast(mac, secret, code, last, now);
  }

  lemma EnablePasses(mac: Mac, s: System, read: nat, secret: Secret, step: int, now: int, codes: seq<Hash>)
    requires !Read(s, read).enabled && Read(s, read).secret == Some(secret) && step == CurrentStep(now) - 1
    ensures var t := Next(mac, s, Enable(read, CodeAt(mac, secret, step), now, codes));
            && t.row == s.row.(enabled := true, last := Some(step), recovery := codes) && Read(t, 0) == t.row
            && t.era == s.era + 1 && t.accepted == s.accepted + [Accepted(s.era + 1, step)]
  {
    CodeMatches(mac, secret, step, None, now);
  }

  lemma LateCheckPasses(mac: Mac, secret: Secret, s: System, step: int)
    requires s.row.enabled && s.row.secret == Some(secret) && s.row.last == Some(step - 1) && Current(s)
    requires CodeAt(mac, secret, step - 2) != CodeAt(mac, secret, step)
    requires CodeAt(mac, secret, step - 1) != CodeAt(mac, secret, step)
    ensures var now := (step - 1) * PERIOD;
            var checked := Next(mac, Next(mac, s, Disable), Check(1, CodeAt(mac, secret, step), now));
            && checked.accepted == s.accepted + [Accepted(s.era + 1, step)] && checked.era == s.era + 1
            && !checked.row.enabled
  {
    var now := (step - 1) * PERIOD;
    assert Read(Next(mac, s, Disable), 1) == s.row;
    CodeMatches(mac, secret, step, s.row.last, now);
  }

  /** What timeliness is for: a check that read the row before it was disabled would be accepted on the row
      that is off, and the next enrolment could then use an earlier step. */
  lemma LateCheckBreaksTheOrder(mac: Mac, secret: Secret, s: System, step: int, codes: seq<Hash>)
    requires s.row.enabled && s.row.secret == Some(secret) && s.row.last == Some(step - 1) && Current(s)
    requires CodeAt(mac, secret, step - 2) != CodeAt(mac, secret, step)
    requires CodeAt(mac, secret, step - 1) != CodeAt(mac, secret, step)
    ensures var now := (step - 1) * PERIOD;
            var checked := Next(mac, Next(mac, s, Disable), Check(1, CodeAt(mac, secret, step), now));
            var pending := Next(mac, checked, SetPending(secret));
            Next(mac, pending, Enable(0, CodeAt(mac, secret, step - 2), now, codes)).accepted ==
              s.accepted + [Accepted(s.era + 1, step), Accepted(s.era + 2, step - 2)]
  {
    var now := (step - 1) * PERIOD;
    var checked := Next(mac, Next(mac, s, Disable), Check(1, CodeAt(mac, secret, step), now));
    LateCheckPasses(mac, secret, s, step);
    var pending := Next(mac, checked, SetPending(secret));
    assert Read(pending, 0) == pending.row;
    EnablePasses(mac, pending, 0, secret, step - 2, now, codes);
  }

  class UserRow {
    var row: Row

    constructor ()
      ensures row == FIRST
    {
      row := FIRST;
    }

    method SetPendingTotp(secret: Secret)
      modifies this
      ensures row == if old(row).enabled then old(row) else old(row).(secret := Some(secret))
    {
      if !row.enabled {
        row := row.(secret := Some(secret));
      }
    }

    method EnableTotp(step: int, codes: seq<Hash>)
      modifies this
      ensures row == old(row).(enabled := true, last := Some(step), recovery := codes)
    {
      row := row.(enabled := true, last := Some(step), recovery := codes);
    }

    method DisableTotp()
      modifies this
      ensures row == FIRST
    {
      row := Row(false, None, None, []);
    }

    method ClaimTotpStep(step: int) returns (claimed: bool)
      modifies this
      ensures claimed == Unused(old(row).last, step) && row == Claimed(old(row), step)
    {
      claimed := row.last.None? || row.last.value < step;
      if claimed {
        row := row.(last := Some(step));
      }
    }

    method UseRecoveryCode(h: Hash) returns (used: bool)
      modifies this
      ensures used <==> h in old(row).recovery
      ensures row == old(row).(recovery := row.recovery)
      ensures multiset(old(row).recovery) == multiset(row.recovery) + if used then multiset{h} else multiset{}
      ensures row.recovery == if used then RemoveFirst(old(row).recovery, h) else old(row).recovery
    {
      used := h in row.recovery;
      if used {
        RemoveFirstTakesOne(row.recovery, h);
        row := row.(recovery := RemoveFirst(row.recovery, h));
      }
    }

    /** `user` is the row as the request read it, perhaps a while ago. */
    method CheckSecondFactor(mac: Mac, user: Row, code: string, now: int) returns (ok: bool)
      modifies this
      ensures var v := Decide(mac, old(row), user, code, now);
              (ok <==> v != Refused) && row == Used(old(row), v)
      ensures |Normalized(code)| == 10 ==>
        && (ok <==> user.enabled && user.secret.Some? && Hash(Normalized(code)) in old(row).recovery)
        && row == old(row).(recovery := row.recovery)
        && multiset(old(row).recovery) ==
             multiset(row.recovery) + if ok then multiset{Hash(Normalized(code))} else multiset{}
      ensures |Normalized(code)| != 10 ==>
        && (ok <==> exists step :: FirstAnswered(mac, user, code, now, step) && LaterThan(step, old(row).last))
        && row == old(row).(last := row.last) && (!ok ==> row == old(row))
        && (ok ==> row.last.Some? && FirstAnswered(mac, user, code, now, row.last.value))
    {
      Decides(mac, row, user, code, now);
      ok := false;
      if !user.enabled || user.secret.None? {
        return;
      }
      if LooksLikeRecoveryCode(code) {
        ok := UseRecoveryCode(Hash(Normalized(code)));
        return;
      }
      var step := FindMatchingStep(mac, user.secret.value, code, user.last, now);
      if step.Some? {
        ok := ClaimTotpStep(step.value);
      }
    }
  }
}
