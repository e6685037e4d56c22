/** The data migration that turns saved syslog configs into manager profiles, and its undoing. */
module SyslogTargets {
  import opened Prelude

  type Id = nat

  datatype Description = Given(text: string) | SyslogDestination

  /** The SIEM type "none" is syslog only. */
  datatype SiemType = NoSiem | Siem(name: string)

  datatype Profile = Profile(
    id: Id, name: string, description: Option<Description>, siemType: SiemType, ip: Option<string>,
    port: Option<int>, protocol: Option<string>)

  datatype Config = Config(
    name: string, description: Option<Description>, profileId: Option<Id>, ip: string,
    port: Option<int>, protocol: Option<string>)

  /** Where syslog goes. */
  datatype Destination = Destination(ip: string, port: int, protocol: string)

  const DEFAULT_PORT := 514

  function Lower(s: string): string {
    seq(|s|, i requires 0 <= i < |s| => Fold(s[i]))
  }

  predicate Empty(s: Option<string>) {
    s.None? || s.value == ""
  }

  /** `port or 514`: a port of 0 is no port. */
  function PortOf(port: Option<int>): int {
    if port.None? || port.value == 0 then DEFAULT_PORT else port.value
  }

  function ProtocolOf(protocol: Option<string>): string {
    if Empty(protocol) then "tcp" else Lower(protocol.value)
  }

  function Normalized(c: Config): Destination {
    Destination(c.ip, PortOf(c.port), ProtocolOf(c.protocol))
  }

  // --- unique names ---

  function Decimal(n: nat): (s: string)
    ensures s != ""
  {
    if n < 10 then ['0' + n as char] else Decimal(n / 10) + ['0' + (n % 10) as char]
  }

  lemma {:induction false} DecimalInjective(n: nat, m: nat)
    requires Decimal(n) == Decimal(m)
    ensures n == m
    decreases n
  {
    var a, b := Decimal(n), Decimal(m);
    assert a[|a| - 1] == '0' + (n % 10) as char && b[|b| - 1] == '0' + (m % 10) as char;
    assert (|a| > 1 <==> n >= 10) && (|b| > 1 <==> m >= 10);
    if n >= 10 {
      assert a[..|a| - 1] == Decimal(n / 10) && b[..|b| - 1] == Decimal(m / 10);
      DecimalInjective(n / 10, m / 10);
    }
  }

  /** The names tried: the name itself, then "name (syslog)", "name (syslog 2)", "name (syslog 3)"... */
  function Candidate(name: string, n: nat): string
    requires n >= 1
  {
    if n == 1 then name else name + Suffix(n)
  }

  function Middle(n: nat): string
    requires n >= 2
  {
    if n == 2 then "" else [' '] + Decimal(n - 1)
  }

  function Suffix(n: nat): (s: string)
    requires n >= 2
    ensures s != ""
  {
    " (syslog" + Middle(n) + ")"
  }

  lemma CandidateInjective(name: string, n: nat, m: nat)
    requires n >= 1 && m >= 1 && Candidate(name, n) == Candidate(name, m)
    ensures n == m
  {
    if n > 1 && m > 1 {
      assert Candidate(name, n)[|name|..] == Suffix(n) && Candidate(name, m)[|name|..] == Suffix(m);
      SuffixInjective(n, m);
    } else {
      assert |Candidate(name, n)| == |Candidate(name, m)|;
    }
  }

  lemma SuffixInjective(n: nat, m: nat)
    requires n >= 2 && m >= 2 && Suffix(n) == Suffix(m)
    ensures n == m
  {
    var a, b := Suffix(n), Suffix(m);
    assert a[8..|a| - 1] == Middle(n) && b[8..|b| - 1] == Middle(m);
    if n > 2 && m > 2 {
      assert Middle(n)[1..] == Decimal(n - 1) && Middle(m)[1..] == Decimal(m - 1);
      DecimalInjective(n - 1, m - 1);
    } else {
      assert |Middle(n)| == |Middle(m)|;
    }
  }

  predicate Taken(names: set<string>, name: string, n: nat) {
    n >= 1 && Candidate(name, n) in names
  }

  ghost function Tried(name: string, n: nat): (tried: set<string>)
    requires n >= 1
  {
    if n == 1 then {} else Tried(name, n - 1) + {Candidate(name, n - 1)}
  }

  lemma {:induction false} TriedMembers(name: string, n: nat)
    requires n >= 1
    ensures forall x :: x in Tried(name, n) ==> exists j :: 1 <= j < n && x == Candidate(name, j)
  {
    if n > 1 {
      TriedMembers(name, n - 1);
      assert Candidate(name, n - 1) == Candidate(name, n - 1);
    }
  }

  lemma NextIsNew(name: string, n: nat)
    requires n >= 1
    ensures Candidate(name, n) !in Tried(name, n)
  {
    TriedMembers(name, n);
    forall j | 1 <= j < n
      ensures Candidate(name, j) != Candidate(name, n)
    {
      if Candidate(name, j) == Candidate(name, n) {
        CandidateInjective(name, j, n);
      }
    }
  }

  lemma {:induction false} TriedSize(name: string, n: nat)
    requires n >= 1
    ensures |Tried(name, n)| == n - 1
  {
    if n > 1 {
      TriedSize(name, n - 1);
      NextIsNew(name, n - 1);
    }
  }

  /** Pigeonhole: no more candidates can be taken than there are names. */
  lemma CandidatesRunOut(names: set<string>, name: string, n: nat)
    requires n >= 1 && forall j :: 1 <= j < n ==> Taken(names, name, j)
    ensures n - 1 <= |names|
  {
    TriedSize(name, n);
    TriedMembers(name, n);
    forall x | x in Tried(name, n)
      ensures x in names
    {
      var j :| 1 <= j < n && x == Candidate(name, j);
      assert Taken(names, name, j);
    }
    SubsetSize(Tried(name, n), names);
  }

  lemma {:induction false} SubsetSize<T>(a: set<T>, b: set<T>)
    requires a <= b
    ensures |a| <= |b|
    decreases |a|
  {
    if a != {} {
      var x :| x in a;
      SubsetSize(a - {x}, b - {x});
    }
  }

  /** The first candidate from `n` on that is free. */
  ghost function FreeFrom(names: set<string>, name: string, n: nat): (k: nat)
    requires n >= 1 && forall j :: 1 <= j < n ==> Taken(names, name, j)
    ensures k >= n && Candidate(name, k) !in names && forall j :: 1 <= j < k ==> Taken(names, name, j)
    decreases |names| + 1 - n
  {
    CandidatesRunOut(names, name, n);
    if Taken(names, name, n) then
      CandidatesRunOut(names, name, n + 1);
      FreeFrom(names, name, n + 1)
    else n
  }

  ghost function UniqueName(names: set<string>, name: string): string {
    Candidate(name, FreeFrom(names, name, 1))
  }

  lemma FirstFree(names: set<string>, name: string, n: nat)
    requires n >= 1 && Candidate(name, n) !in names && forall j :: 1 <= j < n ==> Taken(names, name, j)
    ensures UniqueName(names, name) == Candidate(name, n)
  {
    var k := FreeFrom(names, name, 1);
    assert k > n ==> Taken(names, name, n);
    assert n > k ==> Taken(names, name, k);
  }

  function Names(t: seq<Profile>): set<string> {
    set p | p in t :: p.name
  }

  method FindUniqueName(t: seq<Profile>, name: string) returns (candidate: string)
    ensures candidate == UniqueName(Names(t), name) && candidate !in Names(t)
  {
    candidate := name;
    var n := 1;
    while candidate in Names(t)
      invariant n >= 1 && candidate == Candidate(name, n)
      invariant forall j :: 1 <= j < n ==> Taken(Names(t), name, j)
      decreases |Names(t)| + 1 - n
    {
      assert Taken(Names(t), name, n);
      CandidatesRunOut(Names(t), name, n + 1);
      n := n + 1;
      candidate := name + Suffix(n);
    }
    FirstFree(Names(t), name, n);
  }

  // --- up ---

  /** The row with a primary key. */
  function IndexOf(t: seq<Profile>, id: Id): (r: Option<nat>)
    ensures r.Some? ==> r.value < |t| && t[r.value].id == id
    ensures r.None? ==> forall i :: 0 <= i < |t| ==> t[i].id != id
    decreases |t|
  {
    if t == [] then None
    else
      var r := IndexOf(t[..|t| - 1], id);
      if r.None? && t[|t| - 1].id == id then Some(|t| - 1) else r
  }

  /** A config goes onto its own profile if that has no port yet and no other address. */
  predicate Links(t: seq<Profile>, c: Config) {
    c.profileId.Some? && IndexOf(t, c.profileId.value).Some? &&
    var p := t[IndexOf(t, c.profileId.value).value];
    p.port.None? && (Empty(p.ip) || p.ip == Some(c.ip))
  }

  function Pointed(p: Profile, c: Config): Profile {
    p.(ip := Some(c.ip), port := Some(PortOf(c.port)), protocol := Some(ProtocolOf(c.protocol)))
  }

  function DescriptionOf(c: Config): Option<Description> {
    if c.description.None? || c.description.value == Given("") then Some(SyslogDestination) else c.description
  }

  function Inserted(c: Config, id: Id, name: string): Profile {
    Profile(id, name, DescriptionOf(c), NoSiem, Some(c.ip), Some(PortOf(c.port)), Some(ProtocolOf(c.protocol)))
  }

  ghost function Moved(t: seq<Profile>, c: Config, id: Id): seq<Profile> {
    if Links(t, c) then
      var i := IndexOf(t, c.profileId.value).value;
      t[i := Pointed(t[i], c)]
    else t + [Inserted(c, id, UniqueName(Names(t), c.name))]
  }

  /** The rows before the new columns hold anything. */
  function Bare(p: Profile): Profile {
    p.(port := None, protocol := None)
  }

  function Widened(t: seq<Profile>): seq<Profile> {
    seq(|t|, i requires 0 <= i < |t| => Bare(t[i]))
  }

  ghost function UpFrom(t: seq<Profile>, configs: seq<Config>, ids: seq<Id>): seq<Profile>
    requires |ids| == |configs|
    decreases |configs|
  {
    if configs == [] then t else UpFrom(Moved(t, configs[0], ids[0]), configs[1..], ids[1..])
  }

  // --- what up keeps ---

  predicate DistinctIds(t: seq<Profile>) {
    forall i, j :: 0 <= i < j < |t| ==> t[i].id != t[j].id
  }

  predicate DistinctNames(t: seq<Profile>) {
    forall i, j :: 0 <= i < j < |t| ==> t[i].name != t[j].name
  }

  /** New keys: none twice, none in use. */
  predicate NewIds(t: seq<Profile>, ids: seq<Id>) {
    && (forall i, j :: 0 <= i < j < |ids| ==> ids[i] != ids[j])
    && forall i, k :: 0 <= i < |t| && 0 <= k < |ids| ==> t[i].id != ids[k]
  }

  lemma {:induction false} UpKeepsKeys(t: seq<Profile>, configs: seq<Config>, ids: seq<Id>)
    requires |ids| == |configs| && DistinctIds(t) && DistinctNames(t) && NewIds(t, ids)
    ensures DistinctIds(UpFrom(t, configs, ids)) && DistinctNames(UpFrom(t, configs, ids))
    decreases |configs|
  {
    if configs != [] {
      var u := Moved(t, configs[0], ids[0]);
      if !Links(t, configs[0]) {
        assert forall i :: 0 <= i < |t| ==> t[i].name in Names(t);
      }
      assert NewIds(u, ids[1..]);
      UpKeepsKeys(u, configs[1..], ids[1..]);
    }
  }

  /** Nothing is taken from a profile that was there: it keeps its name, description and SIEM type, its
      address too unless it had none, and gets a port only together with its address. New profiles are
      syslog only. */
  lemma {:induction false} UpKeepsProfiles(t: seq<Profile>, configs: seq<Config>, ids: seq<Id>, i: nat)
    requires |ids| == |configs| && i < |UpFrom(t, configs, ids)|
    ensures var p := UpFrom(t, configs, ids)[i];
            && |t| <= |UpFrom(t, configs, ids)|
            && (i < |t| ==> p.(ip := t[i].ip, port := t[i].port, protocol := t[i].protocol) == t[i])
            && (i < |t| && p != t[i] ==> t[i].port.None? && p.port.Some? && (Empty(t[i].ip) || p.ip == t[i].ip))
            && (i >= |t| ==> p.siemType == NoSiem && p.port.Some? && p.ip.Some?)
    decreases |configs|
  {
    if configs != [] {
      UpKeepsProfiles(Moved(t, configs[0], ids[0]), configs[1..], ids[1..], i);
    }
  }

  // --- what up makes of each config ---

  /** The profile sends syslog where the config did: port 514 unless it has one, "tcp" unless it has a protocol,
      which is written in small letters. */
  ghost predicate SendsTo(p: Profile, c: Config) {
    && p.ip == Some(c.ip)
    && p.port == Some(if c.port.None? || c.port.value == 0 then 514 else c.port.value)
    && p.protocol.Some? && InSmallLetters(if Empty(c.protocol) then "tcp" else c.protocol.value, p.protocol.value)
  }

  ghost predicate InSmallLetters(s: string, small: string) {
    |small| == |s| && forall i :: 0 <= i < |s| ==> small[i] == if 'A' <= s[i] <= 'Z' then s[i] - 'A' + 'a' else s[i]
  }

  /** The config names this profile, which has its address or none. */
  ghost predicate Suits(p: Profile, c: Config) {
    c.profileId == Some(p.id) && (p.ip == None || p.ip == Some("") || p.ip == Some(c.ip))
  }

  /** Config `k` is the first that suits profile `i`. */
  ghost predicate FirstFor(t: seq<Profile>, configs: seq<Config>, k: nat, i: nat)
    requires k < |configs| && i < |t|
  {
    Suits(t[i], configs[k]) && forall j :: 0 <= j < k ==> !Suits(t[i], configs[j])
  }

  ghost predicate HasProfile(t: seq<Profile>, configs: seq<Config>, k: nat)
    requires k < |configs|
  {
    exists i :: 0 <= i < |t| && FirstFor(t, configs, k, i)
  }

  /** The positions, in order, of the first `n` configs that are the first to suit no profile. */
  ghost function Homeless(t: seq<Profile>, configs: seq<Config>, n: nat): seq<nat>
    requires n <= |configs|
  {
    if n == 0 then []
    else Homeless(t, configs, n - 1) + (if HasProfile(t, configs, n - 1) then [] else [n - 1])
  }

  /** A config's own name if no profile before has it, otherwise the first free one of that name followed by
      " (syslog)", " (syslog 2)", " (syslog 3)"... */
  ghost predicate NamedAfter(before: seq<Profile>, name: string, got: string) {
    if name !in Names(before) then got == name
    else exists n: nat :: n >= 2 && got == name + Suffix(n) && got !in Names(before)
           && forall j :: 2 <= j < n ==> name + Suffix(j) in Names(before)
  }

  /** `p` is the profile of its own that a config gets. */
  ghost predicate MadeFor(before: seq<Profile>, p: Profile, c: Config, id: Id) {
    && p.id == id && p.siemType == NoSiem && SendsTo(p, c) && NamedAfter(before, c.name, p.name)
    && (c.description.Some? && c.description.value != Given("") ==> p.description == c.description)
    && (c.description.None? || c.description.value == Given("") ==> p.description == Some(SyslogDestination))
  }

  /** What the first `n` configs make of profiles without syslog: one that is suited by some sends to the first of
      them and is otherwise as it was; the others are untouched; and behind them come, in order, those made for
      the configs that got no profile. */
  ghost predicate UpTo(t: seq<Profile>, configs: seq<Config>, ids: seq<Id>, n: nat, u: seq<Profile>)
    requires n <= |configs| == |ids|
  {
    var made := Homeless(t, configs, n);
    && |u| == |t| + |made|
    && (forall i :: 0 <= i < |t| ==> KeptOrSent(t, configs, n, i, u[i]))
    && (forall m :: 0 <= m < |made| ==> made[m] < n && MadeAt(u, |t| + m, configs[made[m]], ids[made[m]]))
  }

  ghost predicate MadeAt(u: seq<Profile>, i: nat, c: Config, id: Id)
    requires i < |u|
  {
    MadeFor(u[..i], u[i], c, id)
  }

  ghost predicate KeptOrSent(t: seq<Profile>, configs: seq<Config>, n: nat, i: nat, p: Profile)
    requires n <= |configs| && i < |t|
  {
    && p.(ip := t[i].ip, port := t[i].port, protocol := t[i].protocol) == t[i]
    && (forall k :: 0 <= k < n && FirstFor(t, configs, k, i) ==> SendsTo(p, configs[k]))
    && ((forall k :: 0 <= k < n ==> !Suits(t[i], configs[k])) ==> p == t[i])
  }

  lemma {:induction false} SomeFirst(t: seq<Profile>, configs: seq<Config>, n: nat, i: nat) returns (k: nat)
    requires n <= |configs| && i < |t| && exists j :: 0 <= j < n && Suits(t[i], configs[j])
    ensures k < n && FirstFor(t, configs, k, i)
  {
    if exists j :: 0 <= j < n - 1 && Suits(t[i], configs[j]) {
      k := SomeFirst(t, configs, n - 1, i);
    } else {
      k := n - 1;
    }
  }

  lemma WrittenSendsTo(p: Profile, c: Config)
    requires p.ip == Some(c.ip) && p.port == Some(PortOf(c.port)) && p.protocol == Some(ProtocolOf(c.protocol))
    ensures SendsTo(p, c)
  {
  }

  lemma UniqueIsNamedAfter(before: seq<Profile>, name: string)
    ensures NamedAfter(before, name, UniqueName(Names(before), name))
  {
    var n := FreeFrom(Names(before), name, 1);
    if n == 1 {
      assert Candidate(name, 1) == name;
    } else {
      assert Taken(Names(before), name, 1);
      forall j | 2 <= j < n
        ensures name + Suffix(j) in Names(before)
      {
        assert Taken(Names(before), name, j);
      }
    }
  }

  /** The profiles made have ports and new keys. */
  lemma MadeOnes(t: seq<Profile>, configs: seq<Config>, ids: seq<Id>, n: nat, u: seq<Profile>)
    requires n <= |configs| == |ids| && UpTo(t, configs, ids, n, u)
    ensures forall r :: |t| <= r < |u| ==> u[r].port.Some? && exists k :: 0 <= k < |ids| && u[r].id == ids[k]
  {
    var made := Homeless(t, configs, n);
    forall r | |t| <= r < |u|
      ensures u[r].port.Some? && exists k :: 0 <= k < |ids| && u[r].id == ids[k]
    {
      assert MadeAt(u, |t| + (r - |t|), configs[made[r - |t|]], ids[made[r - |t|]]);
    }
  }

  lemma OnlyIndex(u: seq<Profile>, id: Id, i: nat)
    requires i < |u| && u[i].id == id && forall r :: 0 <= r < |u| && r != i ==> u[r].id != id
    ensures IndexOf(u, id) == Some(i)
  {
  }

  lemma IndexIs(t: seq<Profile>, configs: seq<Config>, ids: seq<Id>, n: nat, u: seq<Profile>, i: nat)
    requires n <= |configs| == |ids| && UpTo(t, configs, ids, n, u) && DistinctIds(t) && NewIds(t, ids) && i < |t|
    ensures IndexOf(u, t[i].id) == Some(i)
  {
    MadeOnes(t, configs, ids, n, u);
    forall r | 0 <= r < |u|
      ensures u[r].id == t[i].id <==> r == i
    {
      if r < |t| {
        assert KeptOrSent(t, configs, n, r, u[r]);
        assert r < i ==> t[r].id != t[i].id;
        assert i < r ==> t[i].id != t[r].id;
      }
    }
    OnlyIndex(u, t[i].id, i);
  }

  /** A profile without a port was suited by no config yet. */
  lemma StillFree(t: seq<Profile>, configs: seq<Config>, n: nat, i: nat, p: Profile)
    requires n <= |configs| && i < |t| && KeptOrSent(t, configs, n, i, p) && p.port.None?
    ensures p == t[i] && forall j :: 0 <= j < n ==> !Suits(t[i], configs[j])
  {
    if exists j :: 0 <= j < n && Suits(t[i], configs[j]) {
      var k := SomeFirst(t, configs, n, i);
      assert false;
    }
  }

  /** The next config links to a profile exactly when it is the first that suits it. */
  lemma LinksToItsProfile(t: seq<Profile>, configs: seq<Config>, ids: seq<Id>, n: nat, u: seq<Profile>)
    requires n < |configs| == |ids| && UpTo(t, configs, ids, n, u) && DistinctIds(t) && NewIds(t, ids)
    requires forall i :: 0 <= i < |t| ==> t[i].port.None?
    ensures Links(u, configs[n]) <==> HasProfile(t, configs, n)
    ensures Links(u, configs[n]) ==>
      var i := IndexOf(u, configs[n].profileId.value).value;
      i < |t| && FirstFor(t, configs, n, i) && u[i] == t[i]
  {
    var c := configs[n];
    MadeOnes(t, configs, ids, n, u);
    if Links(u, c) {
      var i := IndexOf(u, c.profileId.value).value;
      StillFree(t, configs, n, i, u[i]);
      assert FirstFor(t, configs, n, i);
    }
    if HasProfile(t, configs, n) {
      var i :| 0 <= i < |t| && FirstFor(t, configs, n, i);
      assert KeptOrSent(t, configs, n, i, u[i]) && u[i] == t[i];
      IndexIs(t, configs, ids, n, u, i);
    }
  }

  lemma SentStep(t: seq<Profile>, configs: seq<Config>, n: nat, i: nat, j: nat, p: Profile)
    requires n < |configs| && DistinctIds(t) && i < |t| && j < |t| && j != i
    requires FirstFor(t, configs, n, i) && KeptOrSent(t, configs, n, j, p)
    ensures KeptOrSent(t, configs, n + 1, j, p)
  {
    assert t[i].id != t[j].id;
    assert !Suits(t[j], configs[n]);
  }

  lemma PointedIsSent(t: seq<Profile>, configs: seq<Config>, n: nat, i: nat)
    requires n < |configs| && i < |t| && FirstFor(t, configs, n, i)
    ensures KeptOrSent(t, configs, n + 1, i, Pointed(t[i], configs[n]))
  {
    WrittenSendsTo(Pointed(t[i], configs[n]), configs[n]);
  }

  lemma SameNames(u: seq<Profile>, i: nat, p: Profile, n: nat)
    requires i < n <= |u| && p.name == u[i].name
    ensures Names(u[i := p][..n]) == Names(u[..n])
  {
    var a, b := u[..n], u[i := p][..n];
    forall x
      ensures x in Names(a) <==> x in Names(b)
    {
      if x in Names(a) {
        var k :| 0 <= k < n && a[k].name == x;
        assert b[k].name == x && b[k] in b;
      }
      if x in Names(b) {
        var k :| 0 <= k < n && b[k].name == x;
        assert a[k].name == x && a[k] in a;
      }
    }
  }

  lemma MadeStays(u: seq<Profile>, i: nat, p: Profile, r: nat, c: Config, id: Id)
    requires i < r < |u| && p.name == u[i].name && MadeAt(u, r, c, id)
    ensures MadeAt(u[i := p], r, c, id)
  {
    SameNames(u, i, p, r);
  }

  lemma NoneLeftHomeless(t: seq<Profile>, configs: seq<Config>, n: nat, i: nat)
    requires n < |configs| && i < |t| && FirstFor(t, configs, n, i)
    ensures Homeless(t, configs, n + 1) == Homeless(t, configs, n)
  {
    assert HasProfile(t, configs, n);
    assert Homeless(t, configs, n) + [] == Homeless(t, configs, n);
  }

  lemma LinkedStep(t: seq<Profile>, configs: seq<Config>, ids: seq<Id>, n: nat, u: seq<Profile>, i: nat)
    requires n < |configs| == |ids| && UpTo(t, configs, ids, n, u) && DistinctIds(t)
    requires i < |t| && FirstFor(t, configs, n, i) && u[i] == t[i]
    ensures UpTo(t, configs, ids, n + 1, u[i := Pointed(u[i], configs[n])])
  {
    var v, made := u[i := Pointed(u[i], configs[n])], Homeless(t, configs, n);
    NoneLeftHomeless(t, configs, n, i);
    forall j | 0 <= j < |t|
      ensures KeptOrSent(t, configs, n + 1, j, v[j])
    {
      assert KeptOrSent(t, configs, n, j, u[j]);
      if j == i {
        PointedIsSent(t, configs, n, i);
      } else {
        SentStep(t, configs, n, i, j, u[j]);
      }
    }
    forall m | 0 <= m < |made|
      ensures made[m] < n && MadeAt(v, |t| + m, configs[made[m]], ids[made[m]])
    {
      assert MadeAt(u, |t| + m, configs[made[m]], ids[made[m]]);
      MadeStays(u, i, v[i], |t| + m, configs[made[m]], ids[made[m]]);
    }
  }

  lemma MadeStep(t: seq<Profile>, configs: seq<Config>, ids: seq<Id>, n: nat, u: seq<Profile>)
    requires n < |configs| == |ids| && UpTo(t, configs, ids, n, u) && !HasProfile(t, configs, n)
    ensures UpTo(t, configs, ids, n + 1, u + [Inserted(configs[n], ids[n], UniqueName(Names(u), configs[n].name))])
  {
    var c := configs[n];
    var p := Inserted(c, ids[n], UniqueName(Names(u), c.name));
    var v, made := u + [p], Homeless(t, configs, n);
    assert Homeless(t, configs, n + 1) == made + [n];
    forall j | 0 <= j < |t|
      ensures KeptOrSent(t, configs, n + 1, j, v[j])
    {
      assert KeptOrSent(t, configs, n, j, u[j]);
      NotSent(t, configs, n, j, u[j]);
    }
    forall m | 0 <= m < |made| + 1
      ensures (made + [n])[m] < n + 1 && MadeAt(v, |t| + m, configs[(made + [n])[m]], ids[(made + [n])[m]])
    {
      if m < |made| {
        assert MadeAt(u, |t| + m, configs[made[m]], ids[made[m]]);
        assert v[..|t| + m] == u[..|t| + m];
      } else {
        assert v[..|u|] == u;
        WrittenSendsTo(p, c);
        UniqueIsNamedAfter(u, c.name);
      }
    }
  }

  /** A config that gets no profile leaves all of them as they were. */
  lemma NotSent(t: seq<Profile>, configs: seq<Config>, n: nat, j: nat, p: Profile)
    requires n < |configs| && j < |t| && !HasProfile(t, configs, n) && KeptOrSent(t, configs, n, j, p)
    ensures KeptOrSent(t, configs, n + 1, j, p)
  {
    assert !FirstFor(t, configs, n, j);
  }

  lemma UpToStep(t: seq<Profile>, configs: seq<Config>, ids: seq<Id>, n: nat, u: seq<Profile>)
    requires n < |configs| == |ids| && UpTo(t, configs, ids, n, u) && DistinctIds(t) && NewIds(t, ids)
    requires forall i :: 0 <= i < |t| ==> t[i].port.None?
    ensures UpTo(t, configs, ids, n + 1, Moved(u, configs[n], ids[n]))
  {
    LinksToItsProfile(t, configs, ids, n, u);
    if Links(u, configs[n]) {
      LinkedStep(t, configs, ids, n, u, IndexOf(u, configs[n].profileId.value).value);
    } else {
      MadeStep(t, configs, ids, n, u);
    }
  }

  lemma UpFromNext(u: seq<Profile>, configs: seq<Config>, ids: seq<Id>, n: nat)
    requires n <= |configs| == |ids|
    ensures UpFrom(u, configs[n..], ids[n..]) ==
            if n == |configs| then u else UpFrom(Moved(u, configs[n], ids[n]), configs[n + 1..], ids[n + 1..])
  {
    if n < |configs| {
      assert configs[n..][1..] == configs[n + 1..] && ids[n..][1..] == ids[n + 1..];
    }
  }

  lemma {:induction false} UpToTheEnd(t: seq<Profile>, configs: seq<Config>, ids: seq<Id>, n: nat, u: seq<Profile>)
    requires n <= |configs| == |ids| && UpTo(t, configs, ids, n, u) && DistinctIds(t) && NewIds(t, ids)
    requires forall i :: 0 <= i < |t| ==> t[i].port.None?
    ensures UpTo(t, configs, ids, |configs|, UpFrom(u, configs[n..], ids[n..]))
    decreases |configs| - n
  {
    UpFromNext(u, configs, ids, n);
    if n < |configs| {
      UpToStep(t, configs, ids, n, u);
      UpToTheEnd(t, configs, ids, n + 1, Moved(u, configs[n], ids[n]));
    }
  }

  /** The whole migration in terms of the configs: a profile sends to the first config that suits it, and each
      config that is the first for none gets a profile of its own, in order, under its own name if it is free. */
  lemma UpSettlesEachConfig(t: seq<Profile>, configs: seq<Config>, ids: seq<Id>)
    requires |ids| == |configs| && DistinctIds(t) && NewIds(t, ids)
    ensures UpTo(Widened(t), configs, ids, |configs|, UpFrom(Widened(t), configs, ids))
  {
    UpToTheEnd(Widened(t), configs, ids, 0, Widened(t));
    assert configs[0..] == configs && ids[0..] == ids;
  }

  // --- no destination is lost ---

  function TargetOf(p: Profile): multiset<Destination> {
    if p.port.Some? && p.ip.Some? && p.protocol.Some?
    then multiset{Destination(p.ip.value, p.port.value, p.protocol.value)} else multiset{}
  }

  /** Where the profiles of a table send syslog. */
  function Targets(t: seq<Profile>): multiset<Destination>
    decreases |t|
  {
    if t == [] then multiset{} else Targets(t[..|t| - 1]) + TargetOf(t[|t| - 1])
  }

  /** Where the saved configs send it. */
  function Destinations(configs: seq<Config>): multiset<Destination>
    decreases |configs|
  {
    if configs == [] then multiset{} else multiset{Normalized(configs[0])} + Destinations(configs[1..])
  }

  lemma TargetsSnoc(t: seq<Profile>, p: Profile)
    ensures Targets(t + [p]) == Targets(t) + TargetOf(p)
  {
    assert (t + [p])[..|t|] == t;
  }

  lemma {:induction false} TargetsConcat(a: seq<Profile>, b: seq<Profile>)
    ensures Targets(a + b) == Targets(a) + Targets(b)
    decreases |b|
  {
    if b == [] {
      assert a + b == a;
    } else {
      var front, p := b[..|b| - 1], b[|b| - 1];
      assert a + b == a + front + [p] && b == front + [p];
      TargetsConcat(a, front);
      TargetsSnoc(a + front, p);
    }
  }

  lemma TargetsAround(a: seq<Profile>, p: Profile, b: seq<Profile>)
    ensures Targets(a + [p] + b) == Targets(a) + TargetOf(p) + Targets(b)
  {
    TargetsConcat(a + [p], b);
    TargetsSnoc(a, p);
  }

  lemma PointedAddsOne(t: seq<Profile>, i: nat, p: Profile)
    requires i < |t| && TargetOf(t[i]) == multiset{}
    ensures Targets(t[i := p]) == Targets(t) + TargetOf(p)
  {
    var a, b := t[..i], t[i + 1..];
    assert t == a + [t[i]] + b && t[i := p] == a + [p] + b;
    TargetsAround(a, t[i], b);
    TargetsAround(a, p, b);
  }

  lemma WrittenTarget(p: Profile, c: Config)
    requires p.port == Some(PortOf(c.port)) && p.ip == Some(c.ip) && p.protocol == Some(ProtocolOf(c.protocol))
    ensures TargetOf(p) == multiset{Normalized(c)}
  {
  }

  lemma MovedAddsOne(t: seq<Profile>, c: Config, id: Id)
    ensures Targets(Moved(t, c, id)) == Targets(t) + multiset{Normalized(c)}
  {
    if Links(t, c) {
      var i := IndexOf(t, c.profileId.value).value;
      WrittenTarget(Pointed(t[i], c), c);
      PointedAddsOne(t, i, Pointed(t[i], c));
    } else {
      var p := Inserted(c, id, UniqueName(Names(t), c.name));
      WrittenTarget(p, c);
      TargetsSnoc(t, p);
    }
  }

  lemma {:induction false} UpAddsAll(t: seq<Profile>, configs: seq<Config>, ids: seq<Id>)
    requires |ids| == |configs|
    ensures Targets(UpFrom(t, configs, ids)) == Targets(t) + Destinations(configs)
    decreases |configs|
  {
    if configs != [] {
      MovedAddsOne(t, configs[0], ids[0]);
      UpAddsAll(Moved(t, configs[0], ids[0]), configs[1..], ids[1..]);
    }
  }

  lemma {:induction false} NoTargetsYet(t: seq<Profile>)
    ensures Targets(Widened(t)) == multiset{}
    decreases |t|
  {
    if t != [] {
      assert Widened(t)[..|t| - 1] == Widened(t[..|t| - 1]);
      NoTargetsYet(t[..|t| - 1]);
    }
  }

  /** After the migration the profiles with a syslog port are one for one the configs there were: the same
      address, the same port and protocol but for defaults and case. */
  lemma UpLosesNothing(t: seq<Profile>, configs: seq<Config>, ids: seq<Id>)
    requires |ids| == |configs|
    ensures Targets(UpFrom(Widened(t), configs, ids)) == Destinations(configs)
  {
    NoTargetsYet(t);
    UpAddsAll(Widened(t), configs, ids);
  }

  // --- down ---

  /** `port IS NOT NULL AND ip IS NOT NULL AND ip != ''` */
  predicate Exported(p: Profile) {
    p.port.Some? && !Empty(p.ip)
  }

  function ConfigOf(p: Profile): Config
    requires Exported(p)
  {
    Config(p.name, p.description, Some(p.id), p.ip.value, p.port, if Empty(p.protocol) then Some("tcp") else p.protocol)
  }

  function Configs(t: seq<Profile>): seq<Config>
    decreases |t|
  {
    if t == [] then [] else Configs(t[..|t| - 1]) + (if Exported(t[|t| - 1]) then [ConfigOf(t[|t| - 1])] else [])
  }

  /** The config that undoing the migration makes of a profile: its own name, description and settings, with "tcp"
      where it has no protocol. */
  ghost predicate Describes(c: Config, p: Profile) {
    && c.name == p.name && c.description == p.description && c.profileId == Some(p.id) && Some(c.ip) == p.ip
    && c.port == p.port && c.protocol == (if p.protocol in {None, Some("")} then Some("tcp") else p.protocol)
  }

  /** The profiles with a port and an address get one config each, in order, and the others none. */
  lemma {:induction false} DownDescribesEach(t: seq<Profile>, i: nat)
    requires i < |t|
    ensures var k, exported := |Configs(t[..i])|, t[i].port.Some? && t[i].ip.Some? && t[i].ip.value != "";
            && |Configs(t[..i + 1])| == k + (if exported then 1 else 0) <= |Configs(t)|
            && (exported ==> Describes(Configs(t)[k], t[i]))
    decreases |t|
  {
    var n := |t| - 1;
    if i < n {
      DownDescribesEach(t[..n], i);
      assert t[..n][..i] == t[..i] && t[..n][..i + 1] == t[..i + 1];
    } else {
      assert t[..i + 1] == t;
    }
  }

  class Database {
    var managers: seq<Profile>
    var configs: seq<Config>   // in the order of their creation, then name

    constructor (managers: seq<Profile>, configs: seq<Config>)
      ensures this.managers == managers && this.configs == configs
    {
      this.managers, this.configs := managers, configs;
    }

    /** `ids`: a new key for each config, used or not. */
    method Up(ids: seq<Id>)
      requires |ids| == |configs|
      modifies this
      ensures managers == UpFrom(Widened(old(managers)), old(configs), ids) && configs == []
    {
      managers := Widened(managers);
      ghost var start := managers;
      var i := 0;
      assert configs[0..] == configs && ids[0..] == ids;
      while i < |configs|
        invariant 0 <= i <= |configs| && configs == old(configs)
        invariant UpFrom(managers, configs[i..], ids[i..]) == UpFrom(start, configs, ids)
      {
        var c := configs[i];
        assert configs[i..][0] == c && configs[i..][1..] == configs[i + 1..];
        assert ids[i..][0] == ids[i] && ids[i..][1..] == ids[i + 1..];
        var linked: Option<nat> := None;
        if c.profileId.Some? {
          linked := IndexOf(managers, c.profileId.value);
        }
        if linked.Some? && managers[linked.value].port.None?
           && (Empty(managers[linked.value].ip) || managers[linked.value].ip == Some(c.ip)) {
          managers := managers[linked.value := Pointed(managers[linked.value], c)];
        } else {
          var name := FindUniqueName(managers, c.name);
          managers := managers + [Inserted(c, ids[i], name)];
        }
        i := i + 1;
      }
      configs := [];
    }

    method Down()
      modifies this
      ensures configs == Configs(old(managers)) && managers == Widened(old(managers))
    {
      configs := [];
      var i := 0;
      while i < |managers|
        invariant 0 <= i <= |managers| && managers == old(managers)
        invariant configs == Configs(managers[..i])
      {
        assert managers[..i + 1][..i] == managers[..i];
        var p := managers[i];
        if Exported(p) {
          configs := configs + [ConfigOf(p)];
        }
        i := i + 1;
      }
      assert managers[..i] == managers;
      managers := Widened(managers);
    }
  }

  // --- up, then down ---

  lemma LowerTwice(s: string)
    ensures Lower(Lower(s)) == Lower(s) && (s != "" ==> Lower(s) != "") && Lower("tcp") == "tcp"
  {
  }

  /** What the migration writes: a port other than 0, a protocol in lower case. */
  predicate Normal(p: Profile) {
    p.port.Some? ==> p.port.value != 0 && p.ip.Some? && p.protocol.Some? && ProtocolOf(p.protocol) == p.protocol.value
  }

  lemma WrittenNormal(p: Profile, c: Config)
    requires p.port == Some(PortOf(c.port)) && p.ip.Some? && p.protocol == Some(ProtocolOf(c.protocol))
    ensures Normal(p)
  {
    LowerTwice(if Empty(c.protocol) then "tcp" else c.protocol.value);
  }

  predicate AllNormal(t: seq<Profile>) {
    forall i :: 0 <= i < |t| ==> Normal(t[i])
  }

  lemma {:induction false} UpWritesNormal(t: seq<Profile>, configs: seq<Config>, ids: seq<Id>)
    requires |ids| == |configs| && AllNormal(t)
    ensures AllNormal(UpFrom(t, configs, ids))
    decreases |configs|
  {
    if configs != [] {
      var c := configs[0];
      if Links(t, c) {
        WrittenNormal(Pointed(t[IndexOf(t, c.profileId.value).value], c), c);
      } else {
        WrittenNormal(Inserted(c, ids[0], UniqueName(Names(t), c.name)), c);
      }
      UpWritesNormal(Moved(t, configs[0], ids[0]), configs[1..], ids[1..]);
    }
  }

  lemma {:induction false} DestinationsConcat(a: seq<Config>, c: Config)
    ensures Destinations(a + [c]) == Destinations(a) + multiset{Normalized(c)}
    decreases |a|
  {
    if a == [] {
      assert a + [c] == [c];
    } else {
      assert (a + [c])[1..] == a[1..] + [c];
      DestinationsConcat(a[1..], c);
    }
  }

  lemma ExportedDestination(p: Profile)
    requires Exported(p) && Normal(p)
    ensures multiset{Normalized(ConfigOf(p))} == TargetOf(p) && Normalized(ConfigOf(p)).ip != ""
  {
    LowerTwice(p.protocol.value);
  }

  lemma {:induction false} DownWrites(t: seq<Profile>, d: Destination)
    requires AllNormal(t)
    ensures Destinations(Configs(t))[d] == if d.ip == "" then 0 else Targets(t)[d]
    decreases |t|
  {
    if t != [] {
      var front, p := t[..|t| - 1], t[|t| - 1];
      DownWrites(front, d);
      if Exported(p) {
        DestinationsConcat(Configs(front), ConfigOf(p));
        ExportedDestination(p);
      } else {
        assert Configs(t) == Configs(front);
        assert d.ip != "" ==> TargetOf(p)[d] == 0;
      }
    }
  }

  /** Undoing the migration gives every destination back, as often as it was there, except those with an
      empty address. */
  lemma UpThenDown(t: seq<Profile>, configs: seq<Config>, ids: seq<Id>, d: Destination)
    requires |ids| == |configs|
    ensures Destinations(Configs(UpFrom(Widened(t), configs, ids)))[d] ==
            if d.ip == "" then 0 else Destinations(configs)[d]
  {
    UpWritesNormal(Widened(t), configs, ids);
    DownWrites(UpFrom(Widened(t), configs, ids), d);
    UpLosesNothing(t, configs, ids);
  }

  lemma {:induction false} DestinationPresent(configs: seq<Config>, d: Destination)
    ensures d in Destinations(configs) <==> exists k :: 0 <= k < |configs| && Normalized(configs[k]) == d
    decreases |configs|
  {
    if configs != [] {
      DestinationPresent(configs[1..], d);
      if k :| 0 <= k < |configs| && Normalized(configs[k]) == d {
        if k > 0 {
          assert configs[1..][k - 1] == configs[k];
        }
      }
    }
  }

  /** All of them come back exactly when no config had an empty address. */
  lemma AllComeBack(t: seq<Profile>, configs: seq<Config>, ids: seq<Id>)
    requires |ids| == |configs|
    ensures Destinations(Configs(UpFrom(Widened(t), configs, ids))) == Destinations(configs) <==>
            forall k :: 0 <= k < |configs| ==> configs[k].ip != ""
  {
    var again := Destinations(Configs(UpFrom(Widened(t), configs, ids)));
    forall d
      ensures again[d] == if d.ip == "" then 0 else Destinations(configs)[d]
    {
      UpThenDown(t, configs, ids, d);
    }
    if k :| 0 <= k < |configs| && configs[k].ip == "" {
      DestinationPresent(configs, Normalized(configs[k]));
      assert again[Normalized(configs[k])] == 0;
    } else {
      forall d
        ensures again[d] == Destinations(configs)[d]
      {
        DestinationPresent(configs, d);
      }
      assert again == Destinations(configs);
    }
  }

  // --- down, then up ---

  /** What comes back to a profile. */
  function Back(p: Profile): Profile {
    if Exported(p) then p.(port := Some(PortOf(p.port)), protocol := Some(ProtocolOf(p.protocol))) else Bare(p)
  }

  predicate PendingIn(configs: seq<Config>, id: Id) {
    exists k :: 0 <= k < |configs| && configs[k].profileId == Some(id)
  }

  /** A config that undoing the migration wrote from this table. */
  ghost predicate FromTable(t: seq<Profile>, c: Config) {
    exists i :: 0 <= i < |t| && Exported(t[i]) && c == ConfigOf(t[i])
  }

  predicate DistinctProfiles(configs: seq<Config>) {
    forall j, k :: 0 <= j < k < |configs| ==> configs[j].profileId != configs[k].profileId
  }

  /** Part of the configs are back on their profiles, the rest still to come. */
  ghost predicate Halfway(t: seq<Profile>, u: seq<Profile>, configs: seq<Config>) {
    && |u| == |t|
    && (forall i :: 0 <= i < |t| ==> u[i] == if PendingIn(configs, t[i].id) then Bare(t[i]) else Back(t[i]))
    && (forall k :: 0 <= k < |configs| ==> FromTable(t, configs[k]))
    && DistinctProfiles(configs)
  }

  lemma PointedBack(p: Profile)
    requires Exported(p)
    ensures Pointed(Bare(p), ConfigOf(p)) == Back(p)
  {
    LowerTwice("tcp");
  }

  lemma PendingInRest(configs: seq<Config>, id: Id)
    requires configs != [] && DistinctProfiles(configs)
    ensures PendingIn(configs[1..], id) <==> configs[0].profileId != Some(id) && PendingIn(configs, id)
  {
    var rest := configs[1..];
    assert forall k :: 0 <= k < |rest| ==> rest[k] == configs[k + 1];
    if k :| 0 <= k < |configs| && configs[k].profileId == Some(id) {
      if k > 0 {
        assert rest[k - 1].profileId == Some(id);
      }
    }
  }

  lemma LinksBack(t: seq<Profile>, u: seq<Profile>, c: Config, i: nat, id: Id)
    requires DistinctIds(t) && |u| == |t| && i < |t| && Exported(t[i]) && c == ConfigOf(t[i])
    requires u[i] == Bare(t[i]) && forall j :: 0 <= j < |t| ==> u[j].id == t[j].id
    ensures Moved(u, c, id) == u[i := Back(t[i])]
  {
    assert IndexOf(u, t[i].id) == Some(i);
    PointedBack(t[i]);
  }

  lemma OneBack(t: seq<Profile>, u: seq<Profile>, configs: seq<Config>, id: Id)
    requires DistinctIds(t) && configs != [] && Halfway(t, u, configs)
    ensures Halfway(t, Moved(u, configs[0], id), configs[1..])
  {
    var c, rest := configs[0], configs[1..];
    assert FromTable(t, c);
    var i :| 0 <= i < |t| && Exported(t[i]) && c == ConfigOf(t[i]);
    assert PendingIn(configs, t[i].id);
    LinksBack(t, u, c, i, id);
    assert forall k :: 0 <= k < |rest| ==> rest[k] == configs[k + 1];
    forall j | 0 <= j < |t|
      ensures PendingIn(rest, t[j].id) <==> j != i && PendingIn(configs, t[j].id)
    {
      PendingInRest(configs, t[j].id);
    }
  }

  lemma {:induction false} AllBack(t: seq<Profile>, u: seq<Profile>, configs: seq<Config>, ids: seq<Id>)
    requires |ids| == |configs| && DistinctIds(t) && Halfway(t, u, configs)
    ensures Halfway(t, UpFrom(u, configs, ids), [])
    decreases |configs|
  {
    if configs != [] {
      OneBack(t, u, configs, ids[0]);
      AllBack(t, Moved(u, configs[0], ids[0]), configs[1..], ids[1..]);
    }
  }

  lemma {:induction false} ConfigsMembers(t: seq<Profile>, c: Config)
    ensures c in Configs(t) <==> FromTable(t, c)
    decreases |t|
  {
    if t != [] {
      ConfigsMembers(t[..|t| - 1], c);
    }
  }

  lemma {:induction false} ConfigsOnce(t: seq<Profile>, c: Config)
    requires DistinctIds(t)
    ensures multiset(Configs(t))[c] <= 1
    decreases |t|
  {
    if t != [] {
      ConfigsOnce(t[..|t| - 1], c);
      ConfigsMembers(t[..|t| - 1], c);
    }
  }

  lemma TwiceCounts(configs: seq<Config>, j: nat, k: nat)
    requires j < k < |configs| && configs[j] == configs[k]
    ensures multiset(configs)[configs[j]] >= 2
  {
    assert configs == configs[..k] + configs[k..];
    assert configs[j] == configs[..k][j] && configs[k] == configs[k..][0];
  }

  lemma ConfigsFromTable(t: seq<Profile>, configs: seq<Config>)
    requires DistinctIds(t) && multiset(configs) == multiset(Configs(t))
    ensures DistinctProfiles(configs) && forall k :: 0 <= k < |configs| ==> FromTable(t, configs[k])
  {
    forall k | 0 <= k < |configs|
      ensures FromTable(t, configs[k])
    {
      assert configs[k] in multiset(configs);
      ConfigsMembers(t, configs[k]);
    }
    forall j, k | 0 <= j < k < |configs|
      ensures configs[j].profileId != configs[k].profileId
    {
      if configs[j] == configs[k] {
        TwiceCounts(configs, j, k);
        ConfigsOnce(t, configs[j]);
      }
    }
  }

  lemma ExportedIsPending(t: seq<Profile>, configs: seq<Config>, i: nat)
    requires multiset(configs) == multiset(Configs(t)) && i < |t| && Exported(t[i])
    ensures PendingIn(configs, t[i].id)
  {
    ConfigsMembers(t, ConfigOf(t[i]));
    assert ConfigOf(t[i]) in multiset(configs);
    var k :| 0 <= k < |configs| && configs[k] == ConfigOf(t[i]);
  }

  lemma ReadBack(t: seq<Profile>, configs: seq<Config>)
    requires DistinctIds(t) && multiset(configs) == multiset(Configs(t))
    ensures Halfway(t, Widened(t), configs)
  {
    ConfigsFromTable(t, configs);
    forall i | 0 <= i < |t| && Exported(t[i])
      ensures PendingIn(configs, t[i].id)
    {
      ExportedIsPending(t, configs, i);
    }
  }

  predicate Restorable(p: Profile) {
    if p.port.Some? then !Empty(p.ip) && p.port.value != 0 && p.protocol == Some(ProtocolOf(p.protocol))
    else p.protocol.None?
  }

  /** Undone and applied again, in whatever order the configs are read, the migration adds no profile, and
      gives each profile back as it was exactly when its syslog settings are whole: an address, a port
      other than 0 and a protocol in lower case, or none of the last two. */
  lemma DownThenUp(t: seq<Profile>, configs: seq<Config>, ids: seq<Id>)
    requires DistinctIds(t) && |ids| == |configs| && multiset(configs) == multiset(Configs(t))
    ensures var u := UpFrom(Widened(t), configs, ids);
            |u| == |t| && forall i :: 0 <= i < |t| ==> (u[i] == t[i] <==> Restorable(t[i]))
  {
    ReadBack(t, configs);
    AllBack(t, Widened(t), configs, ids);
  }
}
