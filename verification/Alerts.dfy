/** Alerts: conditions that start, may change severity, and clear, and the notices sent about them,
    against the sequence of calls that caused them. */
module Alerts {
  import opened Prelude

  datatype Severity = Warning | Critical

  datatype Alert = Alert(name: string, target: Option<string>, severity: Severity, message: string, since: int)

  datatype Notice = Firing(alert: Alert) | Resolved(alert: Alert, text: Option<string>)

  /** A call at a time. `text` is the message of a clear, if given. */
  datatype Call =
    | Fire(name: string, target: Option<string>, severity: Severity, message: string, at: int)
    | Clear(name: string, target: Option<string>, text: Option<string>)

  type Key = string

  /** A target that is empty counts as none. */
  function KeyOf(name: string, target: Option<string>): Key {
    if target.None? || target.value == "" then name else name + [':'] + target.value
  }

  function CallKey(c: Call): Key {
    KeyOf(c.name, c.target)
  }

  function Target(target: Option<string>): string {
    if target.None? then "" else target.value
  }

  lemma ColonAt(a: string, x: string, k: nat)
    requires ':' !in a && k < |a + x| && (a + x)[k] == ':'
    ensures |a| <= k
  {
    assert forall i :: 0 <= i < |a| ==> a[i] in a && a[i] != ':';
  }

  lemma FirstColon(a: string, b: string, x: string, y: string)
    requires ':' !in a && ':' !in b && a + [':'] + x == b + [':'] + y
    ensures a == b && x == y
  {
    var s := a + [':'] + x;
    assert s == a + ([':'] + x) && s == b + ([':'] + y);
    ColonAt(a, [':'] + x, |b|);
    ColonAt(b, [':'] + y, |a|);
    assert a == s[..|a|] && b == s[..|b|] && x == s[|a| + 1..] && y == s[|b| + 1..];
  }

  /** Alerts of names without a colon, as all names are, share a key only if they are the same condition. */
  lemma KeysAreConditions(name: string, target: Option<string>, other: string, aim: Option<string>)
    requires ':' !in name && ':' !in other && KeyOf(name, target) == KeyOf(other, aim)
    ensures name == other && Target(target) == Target(aim)
  {
    var a, b := KeyOf(name, target), KeyOf(other, aim);
    assert Target(target) != "" <==> ':' in a by {
      assert Target(target) != "" ==> a[|name|] == ':';
    }
    assert Target(aim) != "" <==> ':' in b by {
      assert Target(aim) != "" ==> b[|other|] == ':';
    }
    if Target(target) != "" {
      FirstColon(name, other, target.value, aim.value);
    }
  }

  // --- the manager as a value ---

  datatype State = State(active: map<Key, Alert>, sent: seq<Notice>)

  function Next(s: State, c: Call): State {
    var key := CallKey(c);
    match c
    case Fire(name, target, severity, message, at) =>
      var alert := Alert(name, target, severity, message, if key in s.active then s.active[key].since else at);
      State(s.active[key := alert],
            if key in s.active && s.active[key].severity == severity then s.sent else s.sent + [Firing(alert)])
    case Clear(name, target, text) =>
      State(s.active - {key}, if key in s.active then s.sent + [Resolved(s.active[key], text)] else s.sent)
  }

  function Run(calls: seq<Call>): State
    decreases |calls|
  {
    if calls == [] then State(map[], []) else Next(Run(calls[..|calls| - 1]), calls[|calls| - 1])
  }

  function NoticeKey(n: Notice): Key {
    KeyOf(n.alert.name, n.alert.target)
  }

  function SentTo(sent: seq<Notice>, key: Key): seq<Notice>
    decreases |sent|
  {
    if sent == [] then []
    else SentTo(sent[..|sent| - 1], key) + (if NoticeKey(sent[|sent| - 1]) == key then [sent[|sent| - 1]] else [])
  }

  // --- what the calls about one condition should cause ---

  function CallsOf(calls: seq<Call>, key: Key): seq<Call>
    decreases |calls|
  {
    if calls == [] then []
    else CallsOf(calls[..|calls| - 1], key) + (if CallKey(calls[|calls| - 1]) == key then [calls[|calls| - 1]] else [])
  }

  predicate Open(calls: seq<Call>) {
    calls != [] && calls[|calls| - 1].Fire?
  }

  /** When the episode that the last call belongs to began: at its first fire since the last clear. */
  function Start(calls: seq<Call>): int
    requires Open(calls)
    decreases |calls|
  {
    if Open(calls[..|calls| - 1]) then Start(calls[..|calls| - 1]) else calls[|calls| - 1].at
  }

  function AlertOf(calls: seq<Call>): Alert
    requires Open(calls)
  {
    var c := calls[|calls| - 1];
    Alert(c.name, c.target, c.severity, c.message, Start(calls))
  }

  /** A fire is news if no episode was open or its severity differs from the fire before it; a clear is
      if an episode was open. */
  function News(calls: seq<Call>): seq<Notice>
    requires calls != []
  {
    var before, c := calls[..|calls| - 1], calls[|calls| - 1];
    match c
    case Fire(_, _, severity, _, _) =>
      if Open(before) && before[|before| - 1].severity == severity then [] else [Firing(AlertOf(calls))]
    case Clear(_, _, text) => if Open(before) then [Resolved(AlertOf(before), text)] else []
  }

  function Expected(calls: seq<Call>): seq<Notice>
    decreases |calls|
  {
    if calls == [] then [] else Expected(calls[..|calls| - 1]) + News(calls)
  }

  /** The manager is as the calls about this key say. */
  ghost predicate Follows(s: State, key: Key, calls: seq<Call>) {
    && (key in s.active <==> Open(calls))
    && (Open(calls) ==> s.active[key] == AlertOf(calls))
    && SentTo(s.sent, key) == Expected(calls)
  }

  lemma SentSnoc(sent: seq<Notice>, n: Notice, key: Key)
    ensures SentTo(sent + [n], key) == SentTo(sent, key) + if NoticeKey(n) == key then [n] else []
  {
    assert (sent + [n])[..|sent|] == sent;
  }

  /** Alerts are kept under their own keys. */
  ghost predicate Keyed(s: State) {
    forall key :: key in s.active ==> KeyOf(s.active[key].name, s.active[key].target) == key
  }

  lemma NextKeyed(s: State, c: Call)
    requires Keyed(s)
    ensures Keyed(Next(s, c))
  {
  }

  lemma NextFollows(s: State, c: Call, key: Key, calls: seq<Call>)
    requires Keyed(s) && Follows(s, key, calls) && CallKey(c) == key
    ensures Follows(Next(s, c), key, calls + [c])
  {
    var more, t := calls + [c], Next(s, c);
    assert more[..|calls|] == calls;
    if t.sent != s.sent {
      SentSnoc(s.sent, t.sent[|s.sent|], key);
    }
  }

  lemma NextElsewhere(s: State, c: Call, key: Key)
    requires Keyed(s) && CallKey(c) != key
    ensures var t := Next(s, c);
            && SentTo(t.sent, key) == SentTo(s.sent, key)
            && (key in t.active <==> key in s.active) && (key in s.active ==> t.active[key] == s.active[key])
  {
    var t := Next(s, c);
    if t.sent != s.sent {
      SentSnoc(s.sent, t.sent[|s.sent|], key);
    }
  }

  /** The notices about each condition are exactly those its own calls should cause, and it shows as active,
      since the first fire of its episode, exactly while an episode is open. */
  lemma {:induction false} EveryRunFollows(calls: seq<Call>, key: Key)
    ensures Keyed(Run(calls)) && Follows(Run(calls), key, CallsOf(calls, key))
    decreases |calls|
  {
    if calls != [] {
      var before, c := calls[..|calls| - 1], calls[|calls| - 1];
      EveryRunFollows(before, key);
      NextKeyed(Run(before), c);
      if CallKey(c) == key {
        NextFollows(Run(before), c, key, CallsOf(before, key));
      } else {
        NextElsewhere(Run(before), c, key);
        assert CallsOf(calls, key) == CallsOf(before, key);
      }
    }
  }

  // --- episodes ---

  /** (firing+ resolved)*, perhaps with a last episode still open: every resolved follows a firing, and
      every firing but the first of an episode keeps its start and changes its severity. */
  predicate Episodes(sent: seq<Notice>) {
    && (sent != [] ==> sent[0].Firing?)
    && (forall i :: 0 < i < |sent| && sent[i].Resolved? ==> sent[i - 1].Firing?)
    && (forall i :: 0 < i < |sent| && sent[i - 1].Firing? ==> sent[i].alert.since == sent[i - 1].alert.since)
    && (forall i :: 0 < i < |sent| && sent[i].Firing? && sent[i - 1].Firing? ==>
          sent[i].alert.severity != sent[i - 1].alert.severity)
  }

  /** The last notice stands for the last call. */
  predicate Stands(sent: seq<Notice>, calls: seq<Call>) {
    && (Open(calls) <==> sent != [] && sent[|sent| - 1].Firing?)
    && (Open(calls) ==> sent[|sent| - 1].alert.severity == calls[|calls| - 1].severity)
    && (Open(calls) ==> sent[|sent| - 1].alert.since == Start(calls))
  }

  lemma {:induction false} ExpectedEpisodes(calls: seq<Call>)
    ensures Episodes(Expected(calls)) && Stands(Expected(calls), calls)
    decreases |calls|
  {
    if calls != [] {
      ExpectedEpisodes(calls[..|calls| - 1]);
    }
  }

  /** Over any run, the notices about one condition form episodes, the last of them open exactly while it is
      active. */
  lemma NoticesFormEpisodes(calls: seq<Call>, key: Key)
    ensures var sent := SentTo(Run(calls).sent, key);
            Episodes(sent) && (key in Run(calls).active <==> sent != [] && sent[|sent| - 1].Firing?)
  {
    EveryRunFollows(calls, key);
    ExpectedEpisodes(CallsOf(calls, key));
  }

  class AlertManager {
    var active: map<Key, Alert>
    var sent: seq<Notice>

    function Value(): State
      reads this
    {
      State(active, sent)
    }

    constructor ()
      ensures Value() == Run([])
    {
      active, sent := map[], [];
    }

    method RaiseAlert(name: string, severity: Severity, message: string, target: Option<string>, now: int)
      modifies this
      ensures Value() == Next(old(Value()), Fire(name, target, severity, message, now))
    {
      var alert := Alert(name, target, severity, message, now);
      var key := KeyOf(name, target);
      var previous: Option<Alert> := None;
      if key in active {
        previous := Some(active[key]);
        alert := alert.(since := active[key].since);
      }
      active := active[key := alert];
      if previous.None? || previous.value.severity != severity {
        sent := sent + [Firing(alert)];
      }
    }

    method ClearAlert(name: string, target: Option<string>, text: Option<string>)
      modifies this
      ensures Value() == Next(old(Value()), Clear(name, target, text))
    {
      var key := KeyOf(name, target);
      if key in active {
        sent := sent + [Resolved(active[key], text)];
      }
      active := active - {key};
    }
  }
}
