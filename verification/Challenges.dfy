/** Sign-in challenges: password accepted, code pending. What the store keeps, against everything that
    ever happened to a token. */
module Challenges {
  import opened Prelude

  const TTL := 300
  const MAX_ATTEMPTS := 5

  type Token = nat
  type User = nat

  datatype Item = Item(user: User, expires: real, attempts: nat)

  type Items = map<Token, Item>

  datatype Event = Create(token: Token, user: User) | Lookup(token: Token) | Failed(token: Token) | Finish(token: Token)

  // --- the store as a value ---

  function Expired(m: Items, now: real): set<Token> {
    set k | k in m && m[k].expires <= now
  }

  function Next(m: Items, e: Event, now: real): Items {
    match e
    case Create(token, user) => (m - Expired(m, now))[token := Item(user, now + TTL as real, 0)]
    case Lookup(token) => if token in m && m[token].expires <= now then m - {token} else m
    case Failed(token) =>
      if token !in m then m
      else if m[token].attempts + 1 >= MAX_ATTEMPTS then m - {token}
      else m[token := m[token].(attempts := m[token].attempts + 1)]
    case Finish(token) => m - {token}
  }

  function Answer(m: Items, token: Token, now: real): Option<User> {
    if token in m && now < m[token].expires then Some(m[token].user) else None
  }

  function Run(m: Items, events: seq<(Event, real)>): Items
    decreases |events|
  {
    if events == [] then m else Run(Next(m, events[0].0, events[0].1), events[1..])
  }

  // --- the history of a token ---

  /** A token as its history tells it: created for a user at a time, with wrong codes since, not
      finished. Nothing is ever forgotten. */
  datatype Life = Unborn | Born(user: User, at: real, wrong: nat) | Finished

  function Lived(l: Life, e: Event, token: Token, now: real): Life {
    if e.token != token then l
    else
      match e
      case Create(_, user) => Born(user, now, 0)
      case Lookup(_) => l
      case Failed(_) => if l.Born? then l.(wrong := l.wrong + 1) else l
      case Finish(_) => Finished
  }

  function History(l: Life, token: Token, events: seq<(Event, real)>): Life
    decreases |events|
  {
    if events == [] then l else History(Lived(l, events[0].0, token, events[0].1), token, events[1..])
  }

  /** The rule: good for its user for five minutes and fewer than five wrong codes. */
  function Rule(l: Life, now: real): Option<User> {
    if l.Born? && now < l.at + 300.0 && l.wrong < 5 then Some(l.user) else None
  }

  predicate Ordered(events: seq<(Event, real)>, from: real, now: real)
    decreases |events|
  {
    if events == [] then from <= now else from <= events[0].1 && Ordered(events[1..], events[0].1, now)
  }

  /** The store has exactly what the rule still allows, and perhaps some that only time has ended. */
  predicate Describes(m: Items, token: Token, l: Life, now: real) {
    if token in m
    then l.Born? && m[token] == Item(l.user, l.at + TTL as real, l.wrong) && l.wrong < MAX_ATTEMPTS
    else Rule(l, now).None?
  }

  lemma NextDescribes(m: Items, e: Event, token: Token, l: Life, before: real, now: real)
    requires Describes(m, token, l, before) && before <= now
    ensures Describes(Next(m, e, now), token, Lived(l, e, token, now), now)
  {
  }

  lemma {:induction false} RunDescribes(m: Items, events: seq<(Event, real)>, token: Token, l: Life, from: real,
                                        now: real)
    requires Describes(m, token, l, from) && Ordered(events, from, now)
    ensures Describes(Run(m, events), token, History(l, token, events), now)
    decreases |events|
  {
    if events != [] {
      var (e, at) := events[0];
      NextDescribes(m, e, token, l, from, at);
      RunDescribes(Next(m, e, at), events[1..], token, Lived(l, e, token, at), at, now);
    }
  }

  /** Dropping expired and exhausted challenges is never visible: at any time the store answers for any token
      what its whole history says. */
  lemma ForgettingIsInvisible(events: seq<(Event, real)>, token: Token, from: real, now: real)
    requires Ordered(events, from, now)
    ensures Answer(Run(map[], events), token, now) == Rule(History(Unborn, token, events), now)
  {
    RunDescribes(map[], events, token, Unborn, from, now);
  }

  class ChallengeStore {
    var items: Items

    constructor ()
      ensures items == map[]
    {
      items := map[];
    }

    /** `token` is the random one drawn. */
    method Add(token: Token, user: User, now: real)
      modifies this
      ensures items == Next(old(items), Create(token, user), now)
    {
      items := items - Expired(items, now);
      items := items[token := Item(user, now + TTL as real, 0)];
    }

    method UserFor(token: Token, now: real) returns (user: Option<User>)
      modifies this
      ensures user == Answer(old(items), token, now)
      ensures items == Next(old(items), Lookup(token), now)
    {
      if token !in items || items[token].expires <= now {
        items := items - {token};
        return None;
      }
      user := Some(items[token].user);
    }

    method CountFailure(token: Token, now: real)
      modifies this
      ensures items == Next(old(items), Failed(token), now)
    {
      if token in items {
        var item := items[token].(attempts := items[token].attempts + 1);
        items := items[token := item];
        if item.attempts >= MAX_ATTEMPTS {
          items := items - {token};
        }
      }
    }

    method Close(token: Token, now: real)
      modifies this
      ensures items == Next(old(items), Finish(token), now)
    {
      items := items - {token};
    }
  }
}
