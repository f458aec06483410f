/** The installation-token cache. */
module TokenCache {
  import opened Wrappers

  const MAX_ENTRIES := 1_024

  const DEFAULT_SKEW := 60

  const MAX_REFERENCE_CHARS := 512

  /** A token value and the moment it expires. */
  datatype Token = Token(value: string, expiresAt: int)

  /** A moment, and whether it carries a time zone. */
  datatype Moment = Moment(at: int, aware: bool)

  /** What the minter does when asked: it answers, or it raises. */
  datatype Mint = Minted(token: Token) | MintRaises

  /** `Rejected` stands for the source's `ValueError`, `MintError` for whatever the minter raised. */
  datatype Outcome = Returned(token: Token) | Rejected | MintError

  /** One cached token, least recently used first in a list of them. */
  datatype Entry = Entry(id: int, token: Token)

  // ---------------------------------------------------------------- the plain list

  function Without(list: seq<Entry>, id: int): seq<Entry>
  {
    if list == [] then []
    else (if list[0].id == id then [] else [list[0]]) + Without(list[1..], id)
  }

  function Lookup(list: seq<Entry>, id: int): Option<Token>
  {
    if list == [] then None else if list[0].id == id then Some(list[0].token) else Lookup(list[1..], id)
  }

  function Newest(list: seq<Entry>, maximum: nat): seq<Entry>
  {
    if |list| <= maximum then list else list[|list| - maximum..]
  }

  /** The list after `id` was used with `token`. */
  function Used(list: seq<Entry>, maximum: nat, id: int, token: Token): seq<Entry>
  {
    Newest(Without(list, id) + [Entry(id, token)], maximum)
  }

  /** A request: whom the token is for, under which reference, when, and what the minter would do. */
  datatype Request = Request(id: int, reference: string, now: Moment, mint: Mint)

  predicate ValidRequest(r: Request)
  {
    r.id >= 1 && 1 <= |r.reference| <= MAX_REFERENCE_CHARS && r.now.aware
  }

  predicate Fresh(token: Token, now: Moment, skew: int)
  {
    token.expiresAt > now.at + skew
  }

  function Answer(list: seq<Entry>, skew: int, r: Request): Outcome
  {
    if !ValidRequest(r) then Rejected
    else if Lookup(list, r.id).Some? && Fresh(Lookup(list, r.id).value, r.now, skew) then
      Returned(Lookup(list, r.id).value)
    else if r.mint.MintRaises? then MintError
    else if !Fresh(r.mint.token, r.now, skew) then Rejected
    else Returned(r.mint.token)
  }

  function After(list: seq<Entry>, maximum: nat, skew: int, r: Request): seq<Entry>
  {
    match Answer(list, skew, r)
    case Returned(token) => Used(list, maximum, r.id, token)
    case _ => list
  }

  predicate Distinct(list: seq<Entry>)
  {
    forall i, j :: 0 <= i < j < |list| ==> list[i].id != list[j].id
  }

  lemma {:induction false} WithoutMembers(list: seq<Entry>, id: int)
    ensures forall e :: e in Without(list, id) <==> e in list && e.id != id
    ensures Distinct(list) ==> Distinct(Without(list, id))
    ensures |Without(list, id)| <= |list|
  {
    if list != [] {
      assert list == [list[0]] + list[1..];
      WithoutMembers(list[1..], id);
    }
  }

  lemma {:induction false} LookupMember(list: seq<Entry>, id: int)
    ensures Lookup(list, id).Some? ==> Entry(id, Lookup(list, id).value) in list
    ensures Lookup(list, id).None? ==> forall e :: e in list ==> e.id != id
  {
    if list != [] {
      assert list == [list[0]] + list[1..];
      LookupMember(list[1..], id);
    }
  }

  /** A list the cache can be in. */
  predicate Proper(list: seq<Entry>, maximum: nat)
  {
    Distinct(list) && |list| <= maximum
  }

  /** The used token is the most recent one, of distinct and not too many. */
  lemma UsedKeeps(list: seq<Entry>, maximum: nat, id: int, token: Token)
    requires Proper(list, maximum) && maximum >= 1
    ensures var after := Used(list, maximum, id, token);
            Proper(after, maximum) && after != [] && after[|after| - 1] == Entry(id, token)
  {
    WithoutMembers(list, id);
    var rest := Without(list, id);
    assert forall i :: 0 <= i < |rest| ==> rest[i] in rest;
  }

  /** An entry is dropped only when the list is full of other ids, and then it is the oldest. */
  lemma {:induction false} OnlyOldestDropped(list: seq<Entry>, maximum: nat, id: int, token: Token)
    requires Proper(list, maximum) && maximum >= 1
    ensures Used(list, maximum, id, token)
         == (if |Without(list, id)| == maximum then list[1..] else Without(list, id)) + [Entry(id, token)]
  {
    WithoutMembers(list, id);
    if |Without(list, id)| == maximum {
      NothingRemoved(list, id);
    }
  }

  lemma {:induction false} NothingRemoved(list: seq<Entry>, id: int)
    requires |Without(list, id)| == |list|
    ensures Without(list, id) == list
  {
    if list != [] {
      WithoutMembers(list[1..], id);
      NothingRemoved(list[1..], id);
    }
  }

  // ---------------------------------------------------------------- whole runs

  datatype Call = Get(request: Request) | Revoke(id: int) | Clear

  function Next(list: seq<Entry>, maximum: nat, skew: int, call: Call): seq<Entry>
  {
    match call
    case Get(r) => After(list, maximum, skew, r)
    case Revoke(id) => Without(list, id)
    case Clear => []
  }

  function Run(list: seq<Entry>, maximum: nat, skew: int, calls: seq<Call>): seq<Entry>
  {
    if calls == [] then list
    else Next(Run(list, maximum, skew, calls[..|calls| - 1]), maximum, skew, calls[|calls| - 1])
  }

  lemma {:induction false} RunProper(list: seq<Entry>, maximum: nat, skew: int, calls: seq<Call>)
    requires Proper(list, maximum) && maximum >= 1
    ensures Proper(Run(list, maximum, skew, calls), maximum)
  {
    if calls != [] {
      var k := |calls| - 1;
      var before := Run(list, maximum, skew, calls[..k]);
      RunProper(list, maximum, skew, calls[..k]);
      match calls[k]
      case Get(r) =>
        var answer := Answer(before, skew, r);
        if answer.Returned? {
          UsedKeeps(before, maximum, r.id, answer.token);
        }
      case Revoke(id) => WithoutMembers(before, id);
      case Clear =>
    }
  }

  /** Some call of the run minted this token for this installation. */
  ghost predicate MintedFor(calls: seq<Call>, id: int, token: Token)
  {
    exists call :: call in calls && call.Get? && call.request.id == id && call.request.mint == Minted(token)
  }

  /** No token ever reaches another installation, and every token handed out outlives the skew. */
  lemma {:induction false} TokensNeverCross(maximum: nat, skew: int, calls: seq<Call>, r: Request)
    requires maximum >= 1
    ensures forall e :: e in Run([], maximum, skew, calls) ==> MintedFor(calls, e.id, e.token)
    ensures var answer := Answer(Run([], maximum, skew, calls), skew, r);
            answer.Returned? ==> MintedFor(calls + [Get(r)], r.id, answer.token) && Fresh(answer.token, r.now, skew)
  {
    var now := Run([], maximum, skew, calls);
    if calls != [] {
      var k := |calls| - 1;
      var before := Run([], maximum, skew, calls[..k]);
      TokensNeverCross(maximum, skew, calls[..k], if calls[k].Get? then calls[k].request else r);
      RunProper([], maximum, skew, calls[..k]);
      assert calls == calls[..k] + [calls[k]];
      forall e | e in now
        ensures MintedFor(calls, e.id, e.token)
      {
        Survives(before, maximum, skew, calls[k], e);
        if e in before {
          var call :| call in calls[..k] && call.Get? && call.request.id == e.id &&
                   call.request.mint == Minted(e.token);
          assert call in calls;
        }
      }
    }
    LookupMember(now, r.id);
    var answer := Answer(now, skew, r);
    if answer.Returned? && MintedFor(calls, r.id, answer.token) {
      var call :| call in calls && call.Get? && call.request.id == r.id && call.request.mint == Minted(answer.token);
      assert call in calls + [Get(r)];
    }
    assert Get(r) in calls + [Get(r)];
  }

  /** What is cached after a call was cached before or is what the call returned. */
  lemma Survives(list: seq<Entry>, maximum: nat, skew: int, call: Call, e: Entry)
    requires Proper(list, maximum) && maximum >= 1 && e in Next(list, maximum, skew, call)
    ensures e in list || (call.Get? && Answer(list, skew, call.request) == Returned(e.token) && e.id == call.request.id)
  {
    match call
    case Get(r) =>
      WithoutMembers(list, r.id);
    case Revoke(id) => WithoutMembers(list, id);
    case Clear =>
  }

  /** The entries used more recently than that of `id`. */
  function Since(list: seq<Entry>, id: int): seq<Entry>
  {
    if list == [] then [] else if list[0].id == id then list[1..] else Since(list[1..], id)
  }

  predicate Has(list: seq<Entry>, id: int)
  {
    list != [] && (list[0].id == id || Has(list[1..], id))
  }

  /** `id` is cached, and whatever was used since belongs to `others`. */
  ghost predicate Recently(list: seq<Entry>, id: int, others: set<int>)
  {
    Has(list, id) && forall e :: e in Since(list, id) ==> e.id in others
  }

  lemma {:induction false} SinceWithout(list: seq<Entry>, id: int, removed: int)
    requires Has(list, id) && removed != id
    ensures Has(Without(list, removed), id) && Since(Without(list, removed), id) == Without(Since(list, id), removed)
  {
    var rest := Without(list[1..], removed);
    assert Without(list, removed) == if list[0].id == removed then rest else [list[0]] + rest;
    assert ([list[0]] + rest)[1..] == rest;
    if list[0].id != id {
      SinceWithout(list[1..], id, removed);
    }
  }

  lemma {:induction false} RecentlyWithout(list: seq<Entry>, id: int, others: set<int>, removed: int)
    requires Recently(list, id, others) && removed != id
    ensures Recently(Without(list, removed), id, others)
  {
    SinceWithout(list, id, removed);
    WithoutMembers(Since(list, id), removed);
  }

  lemma {:induction false} SinceAppend(list: seq<Entry>, id: int, e: Entry)
    requires Has(list, id)
    ensures Has(list + [e], id) && Since(list + [e], id) == Since(list, id) + [e]
  {
    assert (list + [e])[1..] == list[1..] + [e];
    if list[0].id != id {
      SinceAppend(list[1..], id, e);
    }
  }

  lemma {:induction false} JustUsed(list: seq<Entry>, e: Entry)
    requires forall x :: x in list ==> x.id != e.id
    ensures Recently(list + [e], e.id, {})
  {
    if list != [] {
      assert (list + [e])[1..] == list[1..] + [e];
      JustUsed(list[1..], e);
    }
  }

  lemma {:induction false} DistinctCount(list: seq<Entry>, ids: set<int>)
    requires Distinct(list) && forall e :: e in list ==> e.id in ids
    ensures |list| <= |ids|
  {
    if list != [] {
      forall e | e in list[1..]
        ensures e.id in ids - {list[0].id}
      {
      }
      DistinctCount(list[1..], ids - {list[0].id});
    }
  }

  /** Dropping the oldest of too many entries spares one that fewer others were used after. */
  lemma NewestRecently(list: seq<Entry>, maximum: nat, id: int, others: set<int>)
    requires Distinct(list) && |list| <= maximum + 1 && Recently(list, id, others) && |others| < maximum
    ensures Recently(Newest(list, maximum), id, others)
  {
    if |list| == maximum + 1 {
      if list[0].id == id {
        DistinctCount(list[1..], others);
        assert false;
      }
    }
  }

  /** The ids other than `id` that calls ask for. */
  function AskedBeside(calls: seq<Call>, id: int): set<int>
  {
    if calls == [] then {} else
    var call := calls[|calls| - 1];
    AskedBeside(calls[..|calls| - 1], id) + (if call.Get? && call.request.id != id then {call.request.id} else {})
  }

  lemma RecentlyMore(list: seq<Entry>, id: int, others: set<int>, more: set<int>)
    requires Recently(list, id, others) && others <= more
    ensures Recently(list, id, more)
  {
  }

  lemma RecentlyNext(list: seq<Entry>, maximum: nat, skew: int, call: Call, id: int, others: set<int>)
    requires Proper(list, maximum) && Recently(list, id, others) && call != Clear && call != Revoke(id)
    requires call.Get? && call.request.id != id ==> call.request.id in others
    requires |others| < maximum
    ensures Recently(Next(list, maximum, skew, call), id, others)
  {
    hide Distinct;
    match call
    case Revoke(other) =>
      RecentlyWithout(list, id, others, other);
    case Get(r) =>
      var answer := Answer(list, skew, r);
      if answer.Returned? {
        var e := Entry(r.id, answer.token);
        WithoutMembers(list, r.id);
        UsedKeeps(list, maximum + 1, r.id, answer.token);
        if r.id == id {
          JustUsed(Without(list, id), e);
          RecentlyMore(Without(list, id) + [e], id, {}, others);
        } else {
          RecentlyWithout(list, id, others, r.id);
          SinceAppend(Without(list, r.id), id, e);
        }
        NewestRecently(Without(list, r.id) + [e], maximum, id, others);
      }
  }

  /** An installation stays cached while fewer than `maximum` others are asked for and nobody revokes it. */
  lemma {:induction false} KeptWhileRecent(
    list: seq<Entry>, maximum: nat, skew: int, calls: seq<Call>, id: int, token: Token)
    requires Proper(list, maximum) && list != [] && list[|list| - 1] == Entry(id, token)
    requires forall i :: 0 <= i < |calls| ==> calls[i] != Clear && calls[i] != Revoke(id)
    requires |AskedBeside(calls, id)| < maximum
    ensures Recently(Run(list, maximum, skew, calls), id, AskedBeside(calls, id))
    ensures Has(Run(list, maximum, skew, calls), id)
  {
    if calls == [] {
      var before := list[..|list| - 1];
      assert list == before + [Entry(id, token)];
      JustUsed(before, Entry(id, token));
    } else {
      var k := |calls| - 1;
      assert calls == calls[..k] + [calls[k]];
      Grows(AskedBeside(calls[..k], id), AskedBeside(calls, id));
      KeptWhileRecent(list, maximum, skew, calls[..k], id, token);
      RunProper(list, maximum, skew, calls[..k]);
      RecentlyMore(Run(list, maximum, skew, calls[..k]), id, AskedBeside(calls[..k], id), AskedBeside(calls, id));
      RecentlyNext(Run(list, maximum, skew, calls[..k]), maximum, skew, calls[k], id, AskedBeside(calls, id));
    }
  }

  lemma Grows(a: set<int>, b: set<int>)
    requires a <= b
    ensures |a| <= |b|
  {
    assert b == a + (b - a);
  }

  /** Whether a request passes the checks at the top, spelled out. */
  ghost predicate Acceptable(r: Request)
  {
    r.id >= 1 && r.reference != "" && |r.reference| <= 512 && r.now.aware
  }

  /** A cached token of the installation that expires later than the skew allows for. */
  ghost predicate Usable(list: seq<Entry>, skew: int, r: Request, token: Token)
  {
    Entry(r.id, token) in list && token.expiresAt > r.now.at + skew
  }

  /** Nothing usable is cached. */
  ghost predicate NothingUsable(list: seq<Entry>, skew: int, r: Request)
  {
    forall e :: e in list && e.id == r.id ==> e.token.expiresAt <= r.now.at + skew
  }

  /** What a request comes to: a usable cached token whatever the minter would do, and the minter's word otherwise. */
  lemma AnswerMeans(list: seq<Entry>, skew: int, r: Request, token: Token)
    requires Distinct(list)
    ensures !Acceptable(r) ==> Answer(list, skew, r) == Rejected
    ensures Acceptable(r) && Usable(list, skew, r, token) ==> Answer(list, skew, r) == Returned(token)
    ensures Acceptable(r) && NothingUsable(list, skew, r) ==>
      Answer(list, skew, r) == match r.mint
                               case MintRaises => MintError
                               case Minted(t) => if t.expiresAt > r.now.at + skew then Returned(t) else Rejected
  {
    LookupMember(list, r.id);
    if Entry(r.id, token) in list {
      var i :| 0 <= i < |list| && list[i] == Entry(r.id, token);
      var found := Entry(r.id, Lookup(list, r.id).value);
      var j :| 0 <= j < |list| && list[j] == found;
      assert i == j;
    }
  }

  /** No cached token of the installation but this one. */
  ghost predicate OnlyToken(list: seq<Entry>, id: int, token: Token)
  {
    forall e :: e in list && e.id == id ==> e.token == token
  }

  lemma {:induction false} HasMember(list: seq<Entry>, id: int)
    ensures Has(list, id) ==> exists e :: e in list && e.id == id
  {
    if Has(list, id) && list[0].id != id {
      HasMember(list[1..], id);
      var e :| e in list[1..] && e.id == id;
      assert e in list;
    } else if Has(list, id) {
      assert list[0] in list;
    }
  }

  /** The token outlives the skew at every call for the installation. */
  ghost predicate Outlives(calls: seq<Call>, skew: int, id: int, token: Token)
  {
    forall i :: 0 <= i < |calls| && calls[i].Get? && calls[i].request.id == id ==>
      token.expiresAt > calls[i].request.now.at + skew
  }

  /** Over calls like these the cache holds no other token of the installation. */
  lemma {:induction false} TokenStays(
    list: seq<Entry>, maximum: nat, skew: int, calls: seq<Call>, id: int, token: Token)
    requires Proper(list, maximum) && list != [] && list[|list| - 1] == Entry(id, token)
    requires forall i :: 0 <= i < |calls| ==> calls[i] != Clear && calls[i] != Revoke(id)
    requires |AskedBeside(calls, id)| < maximum && Outlives(calls, skew, id, token)
    ensures OnlyToken(Run(list, maximum, skew, calls), id, token)
    ensures Entry(id, token) in Run(list, maximum, skew, calls)
  {
    KeptWhileRecent(list, maximum, skew, calls, id, token);
    HasMember(Run(list, maximum, skew, calls), id);
    if calls != [] {
      var k := |calls| - 1;
      var before := Run(list, maximum, skew, calls[..k]);
      Grows(AskedBeside(calls[..k], id), AskedBeside(calls, id));
      TokenStays(list, maximum, skew, calls[..k], id, token);
      RunProper(list, maximum, skew, calls[..k]);
      forall e | e in Run(list, maximum, skew, calls) && e.id == id
        ensures e.token == token
      {
        Survives(before, maximum, skew, calls[k], e);
        if calls[k].Get? && calls[k].request.id == id {
          AnswerMeans(before, skew, calls[k].request, token);
        }
      }
    } else {
      forall e | e in list && e.id == id
        ensures e.token == token
      {
        var i :| 0 <= i < |list| && list[i] == e;
      }
    }
  }

  /**
   * A token that was handed out is handed out again to every later request of its installation, whatever the minter
   * would do: as long as it outlives the skew, nobody revokes or clears it, and fewer than `maximum` others are asked
   * for.
   */
  lemma {:induction false} TokenReused(
    list: seq<Entry>, maximum: nat, skew: int, first: Request, calls: seq<Call>, r: Request, token: Token)
    requires Proper(list, maximum) && maximum >= 1 && Answer(list, skew, first) == Returned(token)
    requires forall i :: 0 <= i < |calls| ==> calls[i] != Clear && calls[i] != Revoke(first.id)
    requires |AskedBeside(calls, first.id)| < maximum && Outlives(calls, skew, first.id, token)
    requires Acceptable(r) && r.id == first.id && token.expiresAt > r.now.at + skew
    ensures Answer(Run(Next(list, maximum, skew, Get(first)), maximum, skew, calls), skew, r) == Returned(token)
  {
    hide Run, Answer, Lookup, Without, AskedBeside;
    var after := Next(list, maximum, skew, Get(first));
    UsedKeeps(list, maximum, first.id, token);
    TokenStays(after, maximum, skew, calls, first.id, token);
    RunProper(after, maximum, skew, calls);
    AnswerMeans(Run(after, maximum, skew, calls), skew, r, token);
  }

  /** What is cached for an installation that was not cached at the start was minted for it since. */
  lemma {:induction false} MintedSince(
    list: seq<Entry>, maximum: nat, skew: int, calls: seq<Call>, id: int, token: Token)
    requires Proper(list, maximum) && maximum >= 1 && (forall e :: e in list ==> e.id != id)
    requires Entry(id, token) in Run(list, maximum, skew, calls)
    ensures MintedFor(calls, id, token)
  {
    var k := |calls| - 1;
    assert calls == calls[..k] + [calls[k]];
    var before := Run(list, maximum, skew, calls[..k]);
    RunProper(list, maximum, skew, calls[..k]);
    Survives(before, maximum, skew, calls[k], Entry(id, token));
    LookupMember(before, id);
    if Entry(id, token) in before {
      MintedSince(list, maximum, skew, calls[..k], id, token);
      var call :| call in calls[..k] && call.Get? && call.request.id == id && call.request.mint == Minted(token);
      assert call in calls;
    }
  }

  /** A revoked token is not handed out again: what a request gets after a revocation was minted after it. */
  lemma {:induction false} RevokedForgotten(
    list: seq<Entry>, maximum: nat, skew: int, calls: seq<Call>, r: Request, token: Token)
    requires Proper(list, maximum) && maximum >= 1
    requires Answer(Run(Next(list, maximum, skew, Revoke(r.id)), maximum, skew, calls), skew, r) == Returned(token)
    ensures MintedFor(calls + [Get(r)], r.id, token)
  {
    var start := Next(list, maximum, skew, Revoke(r.id));
    var now := Run(start, maximum, skew, calls);
    WithoutMembers(list, r.id);
    LookupMember(now, r.id);
    if Entry(r.id, token) in now {
      MintedSince(start, maximum, skew, calls, r.id, token);
      var call :| call in calls && call.Get? && call.request.id == r.id && call.request.mint == Minted(token);
      assert call in calls + [Get(r)];
    } else {
      assert Get(r) in calls + [Get(r)];
    }
  }

  // ---------------------------------------------------------------- the class

  /** The order holds each key of the dictionary once. */
  ghost predicate Keyed(order: seq<int>, tokens: map<int, Token>)
  {
    && (forall id :: id in order <==> id in tokens)
    && (forall i, j :: 0 <= i < j < |order| ==> order[i] != order[j])
  }

  function Drop(order: seq<int>, id: int): (r: seq<int>)
    ensures forall x :: x in r <==> x in order && x != id
  {
    if order == [] then [] else (if order[0] == id then [] else [order[0]]) + Drop(order[1..], id)
  }

  /** The dictionary's items in order. */
  function Listing(order: seq<int>, tokens: map<int, Token>): (list: seq<Entry>)
    requires forall id :: id in order ==> id in tokens
    ensures |list| == |order|
    ensures forall i :: 0 <= i < |order| ==> order[i] in tokens && list[i] == Entry(order[i], tokens[order[i]])
  {
    if order == [] then [] else
    var first := order[0];
    assert first in tokens;
    [Entry(first, tokens[first])] + Listing(order[1..], tokens)
  }

  lemma {:induction false} DropDistinct(order: seq<int>, id: int)
    requires forall i, j :: 0 <= i < j < |order| ==> order[i] != order[j]
    ensures var r := Drop(order, id);
            && (forall i, j :: 0 <= i < j < |r| ==> r[i] != r[j])
            && |r| == if id in order then |order| - 1 else |order|
  {
    if order != [] {
      assert order == [order[0]] + order[1..];
      DropDistinct(order[1..], id);
      var rest := Drop(order[1..], id);
      assert forall i :: 0 <= i < |rest| ==> rest[i] in rest;
    }
  }

  lemma {:induction false} ListingWithout(order: seq<int>, tokens: map<int, Token>, id: int)
    requires forall x :: x in order ==> x in tokens
    ensures Without(Listing(order, tokens), id) == Listing(Drop(order, id), tokens)
  {
    if order != [] {
      ListingWithout(order[1..], tokens, id);
      assert Listing(order, tokens)[1..] == Listing(order[1..], tokens);
      var rest := Drop(order[1..], id);
      assert ([order[0]] + rest)[1..] == rest;
    }
  }

  lemma {:induction false} ListingLookup(order: seq<int>, tokens: map<int, Token>, id: int)
    requires forall x :: x in order ==> x in tokens
    ensures Lookup(Listing(order, tokens), id) == if id in order then Some(tokens[id]) else None
  {
    if order != [] {
      ListingLookup(order[1..], tokens, id);
      assert Listing(order, tokens)[1..] == Listing(order[1..], tokens);
      assert order == [order[0]] + order[1..];
    }
  }

  /** The keys after an insertion. */
  function Keys(order: seq<int>, id: int): seq<int>
  {
    if id in order then order else order + [id]
  }

  lemma KeyedStore(order: seq<int>, tokens: map<int, Token>, id: int, token: Token)
    requires Keyed(order, tokens)
    ensures Keyed(Keys(order, id), tokens[id := token])
  {
  }

  lemma ListingStore(order: seq<int>, tokens: map<int, Token>, id: int, token: Token)
    requires Keyed(order, tokens)
    ensures forall x :: x in Keys(order, id) ==> x in tokens[id := token]
    ensures Without(Listing(Keys(order, id), tokens[id := token]), id) == Without(Listing(order, tokens), id)
  {
    ListingWithout(order, tokens, id);
    ListingWithout(Keys(order, id), tokens[id := token], id);
    DropAppended(order, id);
    assert Listing(Drop(order, id), tokens) == Listing(Drop(order, id), tokens[id := token]);
  }

  class InstallationTokenCache {
    const maximumEntries: nat
    const expirySkew: int
    var tokens: map<int, Token>
    var order: seq<int>

    ghost predicate Consistent()
      reads this
    {
      Keyed(order, tokens)
    }

    ghost predicate Valid()
      reads this
    {
      Consistent() && 1 <= maximumEntries <= 1_024 && |order| <= maximumEntries
    }

    /** The cached entries, least recently used first. */
    ghost function Recent(): (list: seq<Entry>)
      reads this
      requires Consistent()
      ensures |list| == |order|
    {
      Listing(order, tokens)
    }

    /** A skew that is absent or zero becomes the default one. */
    constructor (maximum: nat, skew: Option<int>)
      requires 1 <= maximum <= 1_024
      ensures Valid() && Recent() == [] && maximumEntries == maximum
      ensures expirySkew == if skew.Some? && skew.value != 0 then skew.value else 60
    {
      maximumEntries := maximum;
      expirySkew := if skew.Some? && skew.value != 0 then skew.value else DEFAULT_SKEW;
      tokens := map[];
      order := [];
    }

    method MoveToEnd(id: int)
      requires Consistent() && id in tokens
      modifies this`order
      ensures Consistent()
      ensures Recent() == Without(old(Recent()), id) + [Entry(id, tokens[id])]
      ensures |order| == old(|order|)
    {
      DropDistinct(order, id);
      ListingWithout(order, tokens, id);
      order := Drop(order, id) + [id];
    }

    /** Inserts at the end, or keeps the place of a key already there. */
    method Store(id: int, token: Token)
      requires Consistent()
      modifies this
      ensures Consistent() && id in tokens && tokens[id] == token
      ensures Without(Recent(), id) == Without(old(Recent()), id)
    {
      hide Keyed;
      KeyedStore(order, tokens, id, token);
      ListingStore(order, tokens, id, token);
      tokens := tokens[id := token];
      if id !in order {
        order := order + [id];
      }
    }

    lemma {:induction false} Found(id: int)
      requires Consistent()
      ensures Lookup(Recent(), id) == if id in tokens then Some(tokens[id]) else None
    {
      ListingLookup(order, tokens, id);
    }

    lemma OneListed(id: int)
      requires Consistent()
      ensures forall e :: e in Recent() && e.id == id ==> id in tokens && e.token == tokens[id]
    {
    }

    method GetOrMint(r: Request) returns (outcome: Outcome)
      requires Valid()
      modifies this
      ensures Valid()
      ensures outcome == Answer(old(Recent()), expirySkew, r)
      ensures !Acceptable(r) ==> outcome == Rejected
      ensures Acceptable(r) ==> forall e :: e in old(Recent()) && e.id == r.id ==>
        e.token.expiresAt > r.now.at + expirySkew ==> outcome == Returned(e.token)
      ensures Recent() == After(old(Recent()), maximumEntries, expirySkew, r)
    {
      if r.id < 1 {
        return Rejected;
      }
      if r.reference == "" || |r.reference| > MAX_REFERENCE_CHARS {
        return Rejected;
      }
      if !r.now.aware {
        return Rejected;
      }
      hide Without, Lookup, Keyed, Listing, Drop;
      Found(r.id);
      OneListed(r.id);
      if r.id in tokens && tokens[r.id].expiresAt > r.now.at + expirySkew {
        var cached := tokens[r.id];
        MoveToEnd(r.id);
        return Returned(cached);
      }
      if r.mint.MintRaises? {
        return MintError;
      }
      var token := r.mint.token;
      if token.expiresAt <= r.now.at + expirySkew {
        return Rejected;
      }
      Store(r.id, token);
      MoveToEnd(r.id);
      Evict();
      return Returned(token);
    }

    /** The loop that ends an insertion. */
    method Evict()
      requires Consistent()
      modifies this
      ensures Consistent() && Recent() == Newest(old(Recent()), maximumEntries)
    {
      hide Keyed, Listing;
      ghost var all := Recent();
      while |order| > maximumEntries
        invariant Consistent()
        invariant |order| <= |all| && Recent() == all[|all| - |order|..]
        invariant |all| > maximumEntries ==> |order| >= maximumEntries
        invariant |all| <= maximumEntries ==> |order| == |all|
      {
        PopOldest();
      }
    }

    method PopOldest()
      requires Consistent() && order != []
      modifies this
      ensures Consistent() && Recent() == old(Recent())[1..]
    {
      var oldest := order[0];
      assert order == [oldest] + order[1..];
      tokens := tokens - {oldest};
      order := order[1..];
    }

    method Revoke(id: int)
      requires Valid()
      modifies this
      ensures Valid() && Recent() == Without(old(Recent()), id)
    {
      DropDistinct(order, id);
      ListingWithout(order, tokens, id);
      tokens := tokens - {id};
      order := Drop(order, id);
    }

    method Clear()
      requires Valid()
      modifies this
      ensures Valid() && Recent() == []
    {
      tokens := map[];
      order := [];
    }
  }

  /** What constructing a cache does for any size asked for: nothing is constructed where the source raises. */
  method NewCache(maximum: int, skew: Option<int>) returns (cache: InstallationTokenCache?)
    ensures cache != null <==> 1 <= maximum <= 1_024
    ensures cache != null ==> fresh(cache) && cache.Valid() && cache.Recent() == [] && cache.maximumEntries == maximum
    ensures cache != null ==> cache.expirySkew == if skew.Some? && skew.value != 0 then skew.value else 60
  {
    if maximum < 1 || maximum > MAX_ENTRIES {
      return null;
    }
    cache := new InstallationTokenCache(maximum, skew);
  }

  lemma {:induction false} DropAppended(order: seq<int>, id: int)
    ensures Drop(order + [id], id) == Drop(order, id)
  {
    if order != [] {
      assert (order + [id])[1..] == order[1..] + [id];
      DropAppended(order[1..], id);
    }
  }
}
