/** Prometheus metrics: counters, a cumulative histogram against everything it was told, and label
    sets that a scraper reads back as they were. */
module Telemetry {
  import opened Prelude
  import opened Escaping

  // --- label values ---

  const LABEL_RULES := [Rule('\\', "\\\\"), Rule('\n', "\\n"), Rule('"', "\\\"")]

  function Escape(value: string): string {
    ReplaceAll(value, LABEL_RULES)
  }

  /** A scraper reads a quoted value up to the first quote that no backslash escapes: the value, and what
      follows the quote. */
  function ReadValue(s: string): Option<(string, string)>
    decreases |s|
  {
    if s == "" then None
    else if s[0] == '"' then Some(("", s[1..]))
    else if s[0] != '\\' then Onto(s[0], ReadValue(s[1..]))
    else if |s| == 1 then None
    else Onto(if s[1] == 'n' then '\n' else s[1], ReadValue(s[2..]))
  }

  function Onto(c: char, r: Option<(string, string)>): Option<(string, string)> {
    if r.None? then None else Some(([c] + r.value.0, r.value.1))
  }

  lemma EscapedHead(c: char, tail: string)
    ensures ReadValue(Image(c, LABEL_RULES) + tail) == Onto(c, ReadValue(tail))
  {
    var image := Image(c, LABEL_RULES);
    ImageCases(c, LABEL_RULES);
    if c == '\\' || c == '\n' || c == '"' {
      assert image == if c == '\\' then "\\\\" else if c == '\n' then "\\n" else "\\\"";
      assert (image + tail)[2..] == tail;
    } else {
      assert image == [c];
      assert (image + tail)[1..] == tail;
    }
  }

  /** Reading undoes escaping, whatever the value holds and whatever comes after its closing quote. */
  lemma {:induction false} ReadUndoesEscape(value: string, rest: string)
    ensures ReadValue(Escape(value) + ['"'] + rest) == Some((value, rest))
    decreases |value|
  {
    ReplaceAllIsPerCharacter(value, LABEL_RULES);
    if value == "" {
      assert Escape(value) + ['"'] + rest == ['"'] + rest;
    } else {
      var tail := Escape(value[1..]) + ['"'] + rest;
      assert Escape(value) + ['"'] + rest == Image(value[0], LABEL_RULES) + tail;
      EscapedHead(value[0], tail);
      ReadUndoesEscape(value[1..], rest);
      assert [value[0]] + value[1..] == value;
    }
  }

  // --- label sets ---

  type Labels = seq<(string, string)>

  /** `k="v",k="v"...` and the closing brace. */
  function Body(labels: Labels): string
    decreases labels, 1
  {
    if labels == [] then ['}'] else labels[0].0 + ['='] + (['"'] + (Escape(labels[0].1) + ['"'] + Rest(labels)))
  }

  function Rest(labels: Labels): string
    requires labels != []
    decreases labels, 0
  {
    if |labels| == 1 then ['}'] else [','] + Body(labels[1..])
  }

  /** The label set of a line, sorted already. */
  function Rendered(labels: Labels): string {
    if labels == [] then "" else ['{'] + Body(labels)
  }

  function ReadName(s: string): Option<(string, string)>
    decreases |s|
  {
    if s == "" then None
    else if s[0] == '=' then Some(("", s[1..]))
    else Onto(s[0], ReadName(s[1..]))
  }

  function ReadBody(s: string): Option<Labels>
    decreases |s|
  {
    var name := ReadName(s);
    if name.None? || name.value.1 == "" || name.value.1[0] != '"' || |name.value.1| > |s| then None
    else
      var value := ReadValue(name.value.1[1..]);
      if value.None? then None
      else if value.value.1 == ['}'] then Some([(name.value.0, value.value.0)])
      else if value.value.1 == "" || value.value.1[0] != ',' || |value.value.1| > |s| then None
      else
        var more := ReadBody(value.value.1[1..]);
        if more.None? then None else Some([(name.value.0, value.value.0)] + more.value)
  }

  function ReadLabels(s: string): Option<Labels> {
    if s == "" then Some([]) else if s[0] != '{' then None else ReadBody(s[1..])
  }

  lemma {:induction false} ReadNameStops(name: string, rest: string)
    requires '=' !in name
    ensures ReadName(name + ['='] + rest) == Some((name, rest))
    decreases |name|
  {
    var s := name + ['='] + rest;
    if name == "" {
      assert s == ['='] + rest;
    } else {
      assert s[1..] == name[1..] + ['='] + rest;
      ReadNameStops(name[1..], rest);
      assert s[0] == name[0] && [name[0]] + name[1..] == name;
    }
  }

  lemma {:induction false} ReadBodyUndoesBody(labels: Labels)
    requires labels != [] && forall i :: 0 <= i < |labels| ==> '=' !in labels[i].0
    ensures ReadBody(Body(labels)) == Some(labels)
    decreases |labels|
  {
    var (name, value) := labels[0];
    var rest := Rest(labels);
    var quoted := ['"'] + (Escape(value) + ['"'] + rest);
    ReadNameStops(name, quoted);
    assert quoted[1..] == Escape(value) + ['"'] + rest;
    ReadUndoesEscape(value, rest);
    if |labels| == 1 {
      assert labels == [(name, value)];
    } else {
      assert rest[0] == ',' && rest[1..] == Body(labels[1..]);
      assert forall i :: 0 <= i < |labels[1..]| ==> labels[1..][i] == labels[i + 1];
      ReadBodyUndoesBody(labels[1..]);
      assert labels == [(name, value)] + labels[1..];
    }
  }

  /** A scraper reads the label set that was written, so two series never share a line. */
  lemma LabelsRoundTrip(labels: Labels)
    requires forall i :: 0 <= i < |labels| ==> '=' !in labels[i].0
    ensures ReadLabels(Rendered(labels)) == Some(labels)
  {
    if labels != [] {
      ReadBodyUndoesBody(labels);
      assert Rendered(labels)[1..] == Body(labels);
    }
  }

  // --- what was observed ---

  /** Labels as the program keys its series: sorted, so as a map. */
  type Key = map<string, string>

  type Log = seq<(Key, real)>

  function ValuesOf(log: Log, key: Key): seq<real>
    decreases |log|
  {
    if log == [] then []
    else ValuesOf(log[..|log| - 1], key) + (if log[|log| - 1].0 == key then [log[|log| - 1].1] else [])
  }

  function Sum(values: seq<real>): real
    decreases |values|
  {
    if values == [] then 0.0 else Sum(values[..|values| - 1]) + values[|values| - 1]
  }

  function CountAtMost(values: seq<real>, bound: real): nat
    decreases |values|
  {
    if values == [] then 0
    else CountAtMost(values[..|values| - 1], bound) + (if values[|values| - 1] <= bound then 1 else 0)
  }

  // --- the histogram ---

  const BUCKETS := [0.005, 0.01, 0.025, 0.05, 0.1, 0.25, 0.5, 1.0, 2.5, 5.0, 10.0, 30.0]

  datatype Series = Series(buckets: seq<nat>, sum: real, count: nat)

  function Empty(n: nat): Series {
    Series(seq(n, _ => 0), 0.0, 0)
  }

  /** What a series should hold after these observations. */
  function Summary(bounds: seq<real>, values: seq<real>): Series {
    Series(seq(|bounds|, i requires 0 <= i < |bounds| => CountAtMost(values, bounds[i])), Sum(values), |values|)
  }

  function Observed(bounds: seq<real>, s: Series, value: real): Series
    requires |s.buckets| == |bounds|
  {
    Series(seq(|bounds|, i requires 0 <= i < |bounds| => s.buckets[i] + if value <= bounds[i] then 1 else 0),
           s.sum + value, s.count + 1)
  }

  lemma ObservedIsSummary(bounds: seq<real>, values: seq<real>, value: real)
    ensures Observed(bounds, Summary(bounds, values), value) == Summary(bounds, values + [value])
  {
    assert (values + [value])[..|values|] == values;
  }

  lemma EmptyIsSummary(bounds: seq<real>)
    ensures Empty(|bounds|) == Summary(bounds, [])
  {
  }

  predicate Ascending(bounds: seq<real>) {
    forall i, j :: 0 <= i < j < |bounds| ==> bounds[i] < bounds[j]
  }

  lemma {:induction false} CountGrows(values: seq<real>, low: real, high: real)
    requires low <= high
    ensures CountAtMost(values, low) <= CountAtMost(values, high) <= |values|
    decreases |values|
  {
    if values != [] {
      CountGrows(values[..|values| - 1], low, high);
    }
  }

  /** A sample line of a series; the bucket without a bound is `+Inf`. */
  datatype Sample = Bucket(le: Option<real>, count: nat) | Total(sum: real) | Count(count: nat)

  function Lines(bounds: seq<real>, s: Series): seq<Sample>
    requires |s.buckets| == |bounds|
  {
    seq(|bounds|, i requires 0 <= i < |bounds| => Bucket(Some(bounds[i]), s.buckets[i]))
    + [Bucket(None, s.count), Total(s.sum), Count(s.count)]
  }

  /** The buckets rendered never decrease, and the last, `+Inf`, counts every observation. */
  lemma BucketsAreCumulative(bounds: seq<real>, values: seq<real>)
    requires Ascending(bounds)
    ensures var lines := Lines(bounds, Summary(bounds, values));
            && |lines| == |bounds| + 3
            && (forall i :: 0 <= i <= |bounds| ==> lines[i].Bucket?)
            && (forall i, j :: 0 <= i < j <= |bounds| ==> lines[i].count <= lines[j].count)
            && (forall i :: 0 <= i < |bounds| ==> lines[i] == Bucket(Some(bounds[i]), CountAtMost(values, bounds[i])))
            && lines[|bounds|..] == [Bucket(None, |values|), Total(Sum(values)), Count(|values|)]
  {
    var lines := Lines(bounds, Summary(bounds, values));
    forall i, j | 0 <= i < j <= |bounds|
      ensures lines[i].count <= lines[j].count
    {
      CountGrows(values, bounds[i], if j < |bounds| then bounds[j] else bounds[i]);
    }
  }

  lemma BucketsAscend()
    ensures Ascending(BUCKETS)
  {
  }

  /** A map of series that holds, for each label set observed, what its own observations come to. */
  ghost predicate Keeps(bounds: seq<real>, series: map<Key, Series>, log: Log) {
    && (forall key :: key in series <==> ValuesOf(log, key) != [])
    && (forall key :: key in series ==> series[key] == Summary(bounds, ValuesOf(log, key)))
  }

  lemma ValuesExtend(log: Log, key: Key, value: real, other: Key)
    ensures ValuesOf(log + [(key, value)], other) == ValuesOf(log, other) + if other == key then [value] else []
  {
    assert (log + [(key, value)])[..|log|] == log;
  }

  function SeriesOf(bounds: seq<real>, series: map<Key, Series>, key: Key): Series {
    if key in series then series[key] else Empty(|bounds|)
  }

  lemma KeepsAt(bounds: seq<real>, series: map<Key, Series>, log: Log, key: Key)
    requires Keeps(bounds, series, log)
    ensures SeriesOf(bounds, series, key) == Summary(bounds, ValuesOf(log, key))
  {
    EmptyIsSummary(bounds);
  }

  /** One more observation changes its own series only, and keeps all of them right. */
  lemma KeepsOneMore(bounds: seq<real>, series: map<Key, Series>, log: Log, key: Key, value: real)
    requires Keeps(bounds, series, log) && |SeriesOf(bounds, series, key).buckets| == |bounds|
    ensures Keeps(bounds, series[key := Observed(bounds, SeriesOf(bounds, series, key), value)], log + [(key, value)])
  {
    KeepsAt(bounds, series, log, key);
    ObservedIsSummary(bounds, ValuesOf(log, key), value);
    var more, t := log + [(key, value)], Observed(bounds, SeriesOf(bounds, series, key), value);
    forall other
      ensures other in series[key := t] <==> ValuesOf(more, other) != []
      ensures other in series[key := t] ==> series[key := t][other] == Summary(bounds, ValuesOf(more, other))
    {
      ValuesExtend(log, key, value, other);
      if other != key {
        assert ValuesOf(more, other) == ValuesOf(log, other);
      }
    }
  }

  lemma SumOneMore(values: seq<real>, value: real)
    ensures Sum(values + [value]) == Sum(values) + value
  {
    assert (values + [value])[..|values|] == values;
  }

  method AddToBuckets(bounds: seq<real>, s: Series, value: real) returns (t: Series)
    requires |s.buckets| == |bounds|
    ensures t == Observed(bounds, s, value)
  {
    var buckets := s.buckets;
    var i := 0;
    while i < |bounds|
      invariant 0 <= i <= |bounds| == |buckets|
      invariant forall j :: 0 <= j < i ==> buckets[j] == s.buckets[j] + if value <= bounds[j] then 1 else 0
      invariant forall j :: i <= j < |bounds| ==> buckets[j] == s.buckets[j]
    {
      if value <= bounds[i] {
        buckets := buckets[i := buckets[i] + 1];
      }
      i := i + 1;
    }
    t := Series(buckets, s.sum + value, s.count + 1);
  }

  class Histogram {
    const bounds: seq<real>
    var series: map<Key, Series>
    ghost var log: Log

    ghost predicate Valid()
      reads this
    {
      Ascending(bounds) && Keeps(bounds, series, log)
    }

    constructor ()
      ensures Valid() && bounds == BUCKETS && log == []
    {
      BucketsAscend();
      bounds, series, log := BUCKETS, map[], [];
    }

    method Observe(value: real, labels: Key)
      requires Valid()
      modifies this
      ensures Valid() && log == old(log) + [(labels, value)]
    {
      KeepsAt(bounds, series, log, labels);
      var t := AddToBuckets(bounds, SeriesOf(bounds, series, labels), value);
      KeepsOneMore(bounds, series, log, labels, value);
      series := series[labels := t];
      log := log + [(labels, value)];
    }

    /** The sample lines of one series. */
    method Render(labels: Key) returns (lines: seq<Sample>)
      requires Valid()
      ensures labels in series <==> ValuesOf(log, labels) != []
      ensures lines == if labels in series then Lines(bounds, Summary(bounds, ValuesOf(log, labels))) else []
      ensures labels in series ==> |lines| == |bounds| + 3 && forall i, j :: 0 <= i < j <= |bounds| ==>
                lines[i].Bucket? && lines[j].Bucket? && lines[i].count <= lines[j].count
      ensures labels in series ==> var values := ValuesOf(log, labels);
        && (forall i :: 0 <= i < |bounds| ==> lines[i] == Bucket(Some(bounds[i]), CountAtMost(values, bounds[i])))
        && lines[|bounds|..] == [Bucket(None, |values|), Total(Sum(values)), Count(|values|)]
    {
      if labels !in series {
        return [];
      }
      var s := series[labels];
      BucketsAreCumulative(bounds, ValuesOf(log, labels));
      lines := [];
      var i := 0;
      while i < |bounds|
        invariant 0 <= i <= |bounds|
        invariant lines == Lines(bounds, s)[..i]
      {
        lines := lines + [Bucket(Some(bounds[i]), s.buckets[i])];
        i := i + 1;
      }
      lines := lines + [Bucket(None, s.count), Total(s.sum), Count(s.count)];
    }
  }

  class Counter {
    var values: map<Key, real>
    ghost var log: Log

    /** Each counter is the sum of its own increments; one never incremented reads 0. */
    ghost predicate Valid()
      reads this
    {
      forall key :: ValueOf(key) == Sum(ValuesOf(log, key))
    }

    function ValueOf(labels: Key): real
      reads this
    {
      if labels in values then values[labels] else 0.0
    }

    constructor ()
      ensures Valid() && log == []
    {
      values, log := map[], [];
    }

    method Inc(amount: real, labels: Key)
      requires Valid()
      modifies this
      ensures Valid() && log == old(log) + [(labels, amount)]
    {
      forall key
        ensures Sum(ValuesOf(log + [(labels, amount)], key)) ==
                Sum(ValuesOf(log, key)) + if key == labels then amount else 0.0
      {
        ValuesExtend(log, labels, amount, key);
        SumOneMore(ValuesOf(log, key), amount);
        assert ValuesOf(log, key) + [] == ValuesOf(log, key);
      }
      values := values[labels := ValueOf(labels) + amount];
      log := log + [(labels, amount)];
    }
  }
}
