/** The signing-key cache (src/loro/oidc.py:72-76, 143-179). Times are whole seconds of a clock that never goes back. */
module KeyCache {
  import opened Common
  import opened Decimal

  const COOLDOWN := 30

  /** A key as published; a missing or empty key id is "". */
  datatype Jwk = Jwk(kid: string, kty: string, signing: bool, material: string)

  type Keys = map<string, Jwk>

  function NameOf(key: Jwk, index: nat): string {
    if key.kid != "" then key.kid else "#" + Digits(index)
  }

  /** The signing keys by name; of two keys with one name the later one stays. */
  function KeySet(document: seq<Jwk>): Keys {
    if document == [] then map[]
    else
      var n := |document| - 1;
      if document[n].signing then KeySet(document[..n])[NameOf(document[n], n) := document[n]]
      else KeySet(document[..n])
  }

  /** That a key is the last signing key of its name. */
  predicate IsLast(document: seq<Jwk>, name: string, i: nat) {
    && i < |document| && document[i].signing && NameOf(document[i], i) == name
    && forall j :: i < j < |document| && document[j].signing ==> NameOf(document[j], j) != name
  }

  lemma IsLastInFront(document: seq<Jwk>, name: string, i: nat)
    requires document != []
    requires var n := |document| - 1; !(document[n].signing && NameOf(document[n], n) == name)
    ensures IsLast(document, name, i) <==> IsLast(document[..|document| - 1], name, i)
  {
    var n := |document| - 1;
    assert forall j :: 0 <= j < n ==> document[..n][j] == document[j];
  }

  lemma {:induction false} KeySetHoldsLast(document: seq<Jwk>, name: string)
    ensures name in KeySet(document) <==> exists i: nat :: IsLast(document, name, i)
    ensures forall i: nat :: IsLast(document, name, i) ==> name in KeySet(document) && KeySet(document)[name] == document[i]
  {
    if document != [] {
      var n := |document| - 1;
      var front := document[..n];
      KeySetHoldsLast(front, name);
      if document[n].signing && NameOf(document[n], n) == name {
        assert IsLast(document, name, n);
        assert forall i: nat :: IsLast(document, name, i) ==> i == n;
      } else {
        forall i: nat ensures IsLast(document, name, i) <==> IsLast(front, name, i) {
          IsLastInFront(document, name, i);
        }
      }
    }
  }

  /** A key id picks a key exactly when a signing key has it, and picks one that does. */
  lemma {:induction false} KeyNamedByItsId(document: seq<Jwk>, kid: string)
    requires kid != "" && kid[0] != '#'
    ensures kid in KeySet(document) <==> exists key :: key in document && key.signing && key.kid == kid
    ensures kid in KeySet(document) ==> KeySet(document)[kid].kid == kid && KeySet(document)[kid].signing
  {
    if document != [] {
      var front, last := document[..|document| - 1], document[|document| - 1];
      KeyNamedByItsId(front, kid);
      assert forall key :: key in document <==> key in front || key == last;
      assert last.kid == "" ==> NameOf(last, |front|)[0] == '#';
    }
  }

  /** A key without an id goes by its place in the document, unless another key's id is just that. */
  lemma UnnamedKeyIsNumbered(document: seq<Jwk>, i: nat)
    requires i < |document| && document[i].signing && document[i].kid == ""
    requires forall j :: 0 <= j < |document| ==> document[j].kid != "#" + Digits(i)
    ensures "#" + Digits(i) in KeySet(document) && KeySet(document)["#" + Digits(i)] == document[i]
  {
    var name := "#" + Digits(i);
    forall j | i < j < |document| && document[j].signing ensures NameOf(document[j], j) != name {
      if NameOf(document[j], j) == name {
        assert Digits(j) == ("#" + Digits(j))[1..] == name[1..] == Digits(i);
        ValueOfDigits(i);
        ValueOfDigits(j);
      }
    }
    assert IsLast(document, name, i);
    KeySetHoldsLast(document, name);
  }

  method ReadKeys(document: seq<Jwk>) returns (keys: Keys)
    ensures keys == KeySet(document)
  {
    keys := map[];
    for i := 0 to |document|
      invariant keys == KeySet(document[..i])
    {
      assert document[..i + 1][..i] == document[..i];
      if document[i].signing {
        keys := keys[NameOf(document[i], i) := document[i]];
      }
    }
    assert document[..|document|] == document;
  }

  // ---- Fetching ----

  /** A successful fetch: when it started and what it stored. */
  datatype Fetch = Fetch(at: int, keys: Keys)

  /** The cache, the number of fetches tried, and those that succeeded; `fetchedAt` is None before the first. */
  datatype Cache = Cache(keys: Keys, fetchedAt: Option<int>, attempts: nat, log: seq<Fetch>)

  const EMPTY_CACHE := Cache(map[], None, 0, [])

  predicate YoungerThan(c: Cache, seconds: int, now: int) {
    c.keys != map[] && c.fetchedAt.Some? && now - c.fetchedAt.value < seconds
  }

  /** `_refresh_keys`: a forced refresh respects only the cooldown; a failed fetch leaves the keys as they were. */
  function Refresh(c: Cache, cacheSeconds: int, force: bool, now: int, answer: Option<seq<Jwk>>): (Cache, Option<Keys>) {
    if YoungerThan(c, COOLDOWN, now) || (!force && YoungerThan(c, cacheSeconds, now)) then (c, Some(c.keys))
    else if answer.None? then (c.(attempts := c.attempts + 1), None)
    else
      var keys := KeySet(answer.value);
      (Cache(keys, Some(now), c.attempts + 1, c.log + [Fetch(now, keys)]), Some(keys))
  }

  /** One verification: what the token names, the two clock readings, and what the server would answer at each. */
  datatype Request = Request(kid: Option<string>, kty: string, first: int, second: int,
                             answer1: Option<seq<Jwk>>, answer2: Option<seq<Jwk>>)

  /** The keys a verification goes by, if they can be had: fetched again when they do not hold the key it names. */
  function KeysFor(c: Cache, cacheSeconds: int, q: Request): (Cache, Option<Keys>) {
    var (c1, keys) := Refresh(c, cacheSeconds, false, q.first, q.answer1);
    if keys.Some? && q.kid.Some? && q.kid.value !in keys.value then Refresh(c1, cacheSeconds, true, q.second, q.answer2)
    else (c1, keys)
  }

  function Candidates(keys: Keys, kty: string): set<string> {
    set name | name in keys && keys[name].kty == kty
  }

  datatype Choice = Found(key: Jwk) | UnknownKey | Ambiguous | Unavailable

  /** A key id picks its key; without one the key type must single out a key. */
  predicate Chosen(keys: Option<Keys>, kid: Option<string>, kty: string, r: Choice) {
    match r
    case Found(key) =>
      && keys.Some?
      && (if kid.Some? then kid.value in keys.value && keys.value[kid.value] == key
          else exists name :: name in keys.value && Candidates(keys.value, kty) == {name} && keys.value[name] == key)
    case UnknownKey => keys.Some? && kid.Some? && kid.value !in keys.value
    case Ambiguous => keys.Some? && kid.None? && |Candidates(keys.value, kty)| != 1
    case Unavailable => keys.None?
  }

  /** The answer is determined by the keys and the token. */
  lemma ChoiceIsUnique(keys: Option<Keys>, kid: Option<string>, kty: string, a: Choice, b: Choice)
    requires Chosen(keys, kid, kty, a) && Chosen(keys, kid, kty, b)
    ensures a == b
  {
    if a.Found? && b.Found? && kid.None? {
      var m :| m in keys.value && Candidates(keys.value, kty) == {m} && keys.value[m] == a.key;
      var n :| n in keys.value && Candidates(keys.value, kty) == {n} && keys.value[n] == b.key;
      assert m in {n};
    }
  }

  /** Without a key id the answer is a key exactly when that is the only one of its type; and there is always an answer. */
  lemma OnlyKeyOfItsType(keys: Keys, kty: string, name: string)
    requires name in keys
    ensures Chosen(Some(keys), None, kty, Found(keys[name])) <==>
              && keys[name].kty == kty
              && forall other :: other in keys && keys[other].kty == kty ==> other == name
  {
    var candidates := Candidates(keys, kty);
    if Chosen(Some(keys), None, kty, Found(keys[name])) {
      var only :| only in keys && candidates == {only} && keys[only] == keys[name];
      assert only in candidates;
      assert name in candidates && name == only;
      forall other | other in keys && keys[other].kty == kty ensures other == name {
        assert other in candidates;
      }
    } else if keys[name].kty == kty && forall other :: other in keys && keys[other].kty == kty ==> other == name {
      SameMembers(candidates, {name});
    }
  }

  function After(cacheSeconds: int, requests: seq<Request>): Cache {
    if requests == [] then EMPTY_CACHE
    else KeysFor(After(cacheSeconds, requests[..|requests| - 1]), cacheSeconds, requests[|requests| - 1]).0
  }

  /** A provider starts without keys, and each verification goes on from the cache that the one before it left. */
  lemma EachGoesOn(cacheSeconds: int, requests: seq<Request>, q: Request)
    ensures After(cacheSeconds, []) == Cache(map[], None, 0, [])
    ensures After(cacheSeconds, requests + [q]) == KeysFor(After(cacheSeconds, requests), cacheSeconds, q).0
  {
    assert (requests + [q])[..|requests|] == requests;
  }

  // ---- What holds of every refresh ----

  /** In order of time, and after a key set that is not empty at least the cooldown later. */
  predicate Spaced(log: seq<Fetch>) {
    forall i :: 0 < i < |log| ==>
      log[i - 1].at <= log[i].at && (log[i - 1].keys != map[] ==> log[i - 1].at + COOLDOWN <= log[i].at)
  }

  /** The cache holds what the last successful fetch stored, and the clock reads no less than then. */
  predicate Valid(c: Cache, now: int) {
    && Spaced(c.log)
    && (c.log == [] ==> c.keys == map[] && c.fetchedAt == None)
    && (c.log != [] ==>
          var last := c.log[|c.log| - 1]; c.keys == last.keys && c.fetchedAt == Some(last.at) && last.at <= now)
  }

  lemma SpacedOneMore(log: seq<Fetch>, f: Fetch)
    requires Spaced(log)
    requires log != [] ==> var last := log[|log| - 1];
                           last.at <= f.at && (last.keys != map[] ==> last.at + COOLDOWN <= f.at)
    ensures Spaced(log + [f])
  {
  }

  lemma RefreshKeepsValid(c: Cache, cacheSeconds: int, force: bool, now: int, answer: Option<seq<Jwk>>)
    requires Valid(c, now)
    ensures var (after, keys) := Refresh(c, cacheSeconds, force, now, answer);
            && Valid(after, now) && c.log <= after.log
            && (keys.Some? ==> keys.value == after.keys)
            && c.attempts <= after.attempts <= c.attempts + 1
            && (force && keys.Some? ==> after.fetchedAt.Some? && now - after.fetchedAt.value < COOLDOWN)
  {
    hide KeySet;
    if !YoungerThan(c, COOLDOWN, now) && answer.Some? {
      SpacedOneMore(c.log, Fetch(now, KeySet(answer.value)));
    }
  }

  lemma ValidLater(c: Cache, now: int, later: int)
    requires Valid(c, now) && now <= later
    ensures Valid(c, later)
  {
  }

  /** A key is only called unknown by a key set fetched less than the cooldown ago. */
  lemma UnknownOnlyByRecentKeys(c: Cache, cacheSeconds: int, q: Request)
    requires Valid(c, q.first) && q.first <= q.second
    ensures var (after, keys) := KeysFor(c, cacheSeconds, q);
            && Valid(after, q.second) && c.log <= after.log
            && (keys.Some? && q.kid.Some? && q.kid.value !in keys.value ==>
                  after.fetchedAt.Some? && q.second - after.fetchedAt.value < COOLDOWN)
  {
    hide Refresh;
    var (c1, keys) := Refresh(c, cacheSeconds, false, q.first, q.answer1);
    RefreshKeepsValid(c, cacheSeconds, false, q.first, q.answer1);
    ValidLater(c1, q.first, q.second);
    RefreshKeepsValid(c1, cacheSeconds, true, q.second, q.answer2);
  }

  /**
   * While the cache is young, a verification fetches exactly when it names a key the cache does not hold and the
   * cooldown has passed; and it finds the key it names exactly when the keys then at hold have it.
   */
  lemma YoungCacheFetchesExactlyWhen(c: Cache, cacheSeconds: int, q: Request)
    requires YoungerThan(c, cacheSeconds, q.first) && 30 <= cacheSeconds && q.first <= q.second
    ensures var needed := q.kid.Some? && q.kid.value !in c.keys && !YoungerThan(c, 30, q.second);
            var (after, keys) := KeysFor(c, cacheSeconds, q);
            && after.attempts == c.attempts + (if needed then 1 else 0)
            && keys == (if !needed then Some(c.keys)
                        else if q.answer2.None? then None else Some(KeySet(q.answer2.value)))
  {
    hide KeySet;
  }

  /** An old or empty cache is fetched once more first, whatever the token names. */
  lemma OldCacheFetchesFirst(c: Cache, cacheSeconds: int, q: Request)
    requires !YoungerThan(c, cacheSeconds, q.first) && COOLDOWN <= cacheSeconds && q.first <= q.second
    ensures KeysFor(c, cacheSeconds, q).0.attempts > c.attempts
    ensures q.answer1.None? ==> KeysFor(c, cacheSeconds, q).1 == None
    ensures q.answer1.Some? && (q.kid.Some? ==> q.kid.value in KeySet(q.answer1.value)) ==>
              KeysFor(c, cacheSeconds, q).1 == Some(KeySet(q.answer1.value))
  {
    hide KeySet;
  }

  // ---- What holds over every sequence of verifications ----

  /** The clock readings never go back. */
  predicate InOrder(requests: seq<Request>) {
    && (forall i :: 0 <= i < |requests| ==> requests[i].first <= requests[i].second)
    && (forall i :: 0 < i < |requests| ==> requests[i - 1].second <= requests[i].first)
  }

  lemma {:induction false} AfterIsValid(cacheSeconds: int, requests: seq<Request>, now: int)
    requires InOrder(requests) && (requests != [] ==> requests[|requests| - 1].second <= now)
    ensures Valid(After(cacheSeconds, requests), now)
  {
    hide KeysFor;
    if requests != [] {
      var front, q := requests[..|requests| - 1], requests[|requests| - 1];
      AfterIsValid(cacheSeconds, front, q.first);
      UnknownOnlyByRecentKeys(After(cacheSeconds, front), cacheSeconds, q);
      ValidLater(After(cacheSeconds, requests), q.second, now);
    }
  }

  function NotEmpty(log: seq<Fetch>): nat {
    if log == [] then 0 else NotEmpty(log[..|log| - 1]) + if log[|log| - 1].keys != map[] then 1 else 0
  }

  /** The fetches that got a key set. */
  lemma {:induction false} NotEmptyIsCounted(log: seq<Fetch>)
    ensures NotEmpty(log) == |set i: nat | i < |log| && log[i].keys != map[]|
  {
    if log != [] {
      var n := |log| - 1;
      NotEmptyIsCounted(log[..n]);
      var before := set i: nat | i < |log[..n]| && log[..n][i].keys != map[];
      var all := set i: nat | i < |log| && log[i].keys != map[];
      SameMembers(all, if log[n].keys != map[] then before + {n} else before);
    }
  }

  /** However many verifications there are, fetches that follow a key set take the cooldown each. */
  lemma {:induction false} FetchesTakeTime(log: seq<Fetch>)
    requires Spaced(log) && log != []
    ensures log[0].at + COOLDOWN * NotEmpty(log[..|log| - 1]) <= log[|log| - 1].at
  {
    if |log| > 1 {
      var front := log[..|log| - 1];
      FetchesTakeTime(front);
      assert front[..|front| - 1] == log[..|log| - 2];
    }
  }

  /**
   * Over any sequence of verifications, successful fetches that follow a non-empty key set start at least the
   * cooldown apart, so n of them take at least n cooldowns.
   */
  lemma FetchesAreSpaced(cacheSeconds: int, requests: seq<Request>)
    requires InOrder(requests)
    ensures var log := After(cacheSeconds, requests).log;
            && (forall i :: 0 < i < |log| && log[i - 1].keys != map[] ==> log[i - 1].at + 30 <= log[i].at)
            && (log != [] ==> log[0].at + 30 * NotEmpty(log[..|log| - 1]) <= log[|log| - 1].at)
  {
    AfterIsValid(cacheSeconds, requests, if requests == [] then 0 else requests[|requests| - 1].second);
    if After(cacheSeconds, requests).log != [] {
      FetchesTakeTime(After(cacheSeconds, requests).log);
    }
  }

  // ---- The provider ----

  class OIDCProvider {
    const cacheSeconds: int
    var keys: Keys
    var fetchedAt: Option<int>
    var attempts: nat
    var log: seq<Fetch>

    constructor (cacheSeconds: int)
      ensures this.cacheSeconds == cacheSeconds && Current() == EMPTY_CACHE
    {
      this.cacheSeconds := cacheSeconds;
      keys, fetchedAt, attempts, log := map[], None, 0, [];
    }

    function Current(): Cache
      reads this
    {
      Cache(keys, fetchedAt, attempts, log)
    }

    method RefreshKeys(force: bool, now: int, answer: Option<seq<Jwk>>) returns (r: Option<Keys>)
      requires keys != map[] ==> fetchedAt.Some?
      modifies this
      ensures (Current(), r) == Refresh(old(Current()), cacheSeconds, force, now, answer)
      ensures keys != map[] ==> fetchedAt.Some?
    {
      hide KeySet;
      if keys != map[] && fetchedAt.Some? {
        var age := now - fetchedAt.value;
        var young, cooling := age < cacheSeconds, age < COOLDOWN;
        if (young && !force) || cooling { return Some(keys); }
      }
      attempts := attempts + 1;
      if answer.None? { return None; }
      var fetched := ReadKeys(answer.value);
      log := log + [Fetch(now, fetched)];
      keys, fetchedAt := fetched, Some(now);
      r := Some(fetched);
    }

    /** `_key_for`. */
    method KeyFor(q: Request) returns (r: Choice)
      requires keys != map[] ==> fetchedAt.Some?
      modifies this
      ensures Current() == KeysFor(old(Current()), cacheSeconds, q).0
      ensures Chosen(KeysFor(old(Current()), cacheSeconds, q).1, q.kid, q.kty, r)
      ensures keys != map[] ==> fetchedAt.Some?
    {
      hide Refresh;
      var got := RefreshKeys(false, q.first, q.answer1);
      if got.None? { return Unavailable; }
      if q.kid.Some? && q.kid.value !in got.value {
        got := RefreshKeys(true, q.second, q.answer2);
        if got.None? { return Unavailable; }
      }
      if q.kid.Some? {
        return if q.kid.value in got.value then Found(got.value[q.kid.value]) else UnknownKey;
      }
      var candidates := Candidates(got.value, q.kty);
      if |candidates| != 1 { return Ambiguous; }
      var name :| name in candidates;
      OneCandidate(candidates, name);
      r := Found(got.value[name]);
    }

    /** Any sequence of verifications on a new provider: every answer is the one its keys give. */
    method VerifyAll(requests: seq<Request>) returns (answers: seq<Choice>)
      requires Current() == EMPTY_CACHE
      modifies this
      ensures Current() == After(cacheSeconds, requests)
      ensures |answers| == |requests| && forall i :: 0 <= i < |requests| ==>
                Chosen(KeysFor(After(cacheSeconds, requests[..i]), cacheSeconds, requests[i]).1,
                       requests[i].kid, requests[i].kty, answers[i])
    {
      hide KeysFor, Chosen;
      answers := [];
      for n := 0 to |requests|
        invariant Current() == After(cacheSeconds, requests[..n]) && (keys != map[] ==> fetchedAt.Some?)
        invariant |answers| == n && forall i :: 0 <= i < n ==>
                    Chosen(KeysFor(After(cacheSeconds, requests[..i]), cacheSeconds, requests[i]).1,
                           requests[i].kid, requests[i].kty, answers[i])
      {
        assert requests[..n + 1][..n] == requests[..n];
        var answer := KeyFor(requests[n]);
        answers := answers + [answer];
      }
      assert requests[..|requests|] == requests;
    }
  }

  lemma OneCandidate(names: set<string>, name: string)
    requires name in names && |names| == 1
    ensures names == {name}
  {
    assert |names - {name}| == 0;
  }
}
