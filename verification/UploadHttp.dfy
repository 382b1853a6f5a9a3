/** The one-time HTTP upload coordinator: tokens that guard the PUT route and the back-reference from a
    prepared handle to its token. */
module UploadHttp {
  import opened Prelude
  import opened UploadModel

  /** An unguessable random token. Only its identity matters. */
  type Token = nat

  datatype HttpToken = HttpToken(name: string, expiresAt: Time, used: bool, handle: Option<Id>, jwt: string)

  datatype Coord = Coord(tokens: map<Token, HttpToken>, byHandle: map<Id, Token>)

  /** What a successful claim hands to the PUT handler. */
  datatype Claim = Claim(name: string, handle: Option<Id>, jwt: string)

  predicate IsExpired(t: HttpToken, now: Time) { now > t.expiresAt }

  function NewToken(name: string, ttl: int, handle: Option<Id>, jwt: string, now: Time): HttpToken {
    HttpToken(if name == "" then DEFAULT_UPLOAD_NAME else name,
              now + if ttl <= 0 then DEFAULT_HTTP_UPLOAD_TTL else ttl, false, handle, jwt)
  }

  // ---------------------------------------------------------------- specification

  function DropHandle(byHandle: map<Id, Token>, handle: Option<Id>): map<Id, Token> {
    if handle.Some? then byHandle - {handle.value} else byHandle
  }

  ghost function ExpiredTokens(c: Coord, now: Time): set<Token> {
    set t | t in c.tokens && IsExpired(c.tokens[t], now)
  }

  /** The coordinator without some tokens and the back-references of their handles. */
  ghost function Without(c: Coord, gone: set<Token>): Coord {
    Coord(c.tokens - gone,
          map h | h in c.byHandle && !(exists t :: t in gone && t in c.tokens && c.tokens[t].handle == Some(h)) :: c.byHandle[h])
  }

  /** Every expired token goes, and with it the back-reference of its handle. */
  ghost function Pruned(c: Coord, now: Time): Coord {
    Without(c, ExpiredTokens(c, now))
  }

  lemma WithoutNone(c: Coord)
    ensures Without(c, {}) == c
  {
  }

  lemma WithoutOne(c: Coord, gone: set<Token>, t: Token)
    requires t in c.tokens
    ensures Without(c, gone + {t}) ==
            Coord(Without(c, gone).tokens - {t}, DropHandle(Without(c, gone).byHandle, c.tokens[t].handle))
  {
    var one := Without(c, gone + {t});
    var two := DropHandle(Without(c, gone).byHandle, c.tokens[t].handle);
    assert forall h :: h in one.byHandle <==> h in two;
  }

  ghost function Minted(c: Coord, token: Token, t: HttpToken, now: Time): Coord {
    var p := Pruned(c, now);
    Coord(p.tokens[token := t],
          if t.handle.Some? then p.byHandle[t.handle.value := token] else p.byHandle)
  }

  /** Validates and consumes a token in one locked region. */
  function Consumed(c: Coord, token: Token, now: Time): (Coord, Option<Claim>) {
    if token !in c.tokens then (c, None)
    else
      var t := c.tokens[token];
      if t.used || IsExpired(t, now) then
        (Coord(c.tokens - {token}, DropHandle(c.byHandle, t.handle)), None)
      else
        (Coord(c.tokens[token := t.(used := true)], DropHandle(c.byHandle, t.handle)), Some(Claim(t.name, t.handle, t.jwt)))
  }

  function Found(c: Coord, handle: Id, now: Time): Option<Token> {
    if handle in c.byHandle && c.byHandle[handle] in c.tokens &&
       !c.tokens[c.byHandle[handle]].used && !IsExpired(c.tokens[c.byHandle[handle]], now)
    then Some(c.byHandle[handle]) else None
  }

  // ---------------------------------------------------------------- implementation

  class Upload {
    var tokens: map<Token, HttpToken>
    var byHandle: map<Id, Token>

    constructor ()
      ensures View() == Coord(map[], map[])
    {
      tokens, byHandle := map[], map[];
    }

    ghost function View(): Coord
      reads this
    {
      Coord(tokens, byHandle)
    }

    /** Walks the token map in an arbitrary order and deletes what has expired. */
    method PruneLocked(now: Time)
      modifies this
      ensures View() == Pruned(old(View()), now)
    {
      ghost var was := View();
      ghost var gone: set<Token> := {};
      var todo := tokens.Keys;
      WithoutNone(was);
      while todo != {}
        invariant todo <= was.tokens.Keys && todo !! gone
        invariant gone == ExpiredTokens(was, now) - todo
        invariant View() == Without(was, gone)
        decreases |todo|
      {
        var t :| t in todo;
        todo := todo - {t};
        PruneToken(t, was, gone, now);
        gone := if IsExpired(was.tokens[t], now) then gone + {t} else gone;
      }
      assert gone == ExpiredTokens(was, now);
    }

    /** The body of the loop over the tokens; `gone` are those deleted so far. */
    method PruneToken(t: Token, ghost was: Coord, ghost gone: set<Token>, now: Time)
      requires t in was.tokens && t !in gone && View() == Without(was, gone)
      modifies this
      ensures View() == Without(was, if IsExpired(was.tokens[t], now) then gone + {t} else gone)
    {
      if now > tokens[t].expiresAt {
        WithoutOne(was, gone, t);
        DeleteToken(t);
      }
    }

    /** Deletes a token and the back-reference of its handle. */
    method DeleteToken(t: Token)
      requires t in tokens
      modifies this
      ensures View() == Coord(old(tokens) - {t}, DropHandle(old(byHandle), old(tokens)[t].handle))
    {
      var handle := tokens[t].handle;
      tokens := tokens - {t};
      if handle.Some? {
        byHandle := byHandle - {handle.value};
      }
    }

    /** The locked region of Mint (no handle) and of Prepare. */
    method MintLocked(token: Token, name: string, ttl: int, handle: Option<Id>, jwt: string, now: Time)
      modifies this
      ensures View() == Minted(old(View()), token, NewToken(name, ttl, handle, jwt, now), now)
    {
      PruneLocked(now);
      tokens := tokens[token := NewToken(name, ttl, handle, jwt, now)];
      if handle.Some? {
        byHandle := byHandle[handle.value := token];
      }
    }

    method FindUpload(handle: Id, now: Time) returns (r: Option<Token>)
      ensures r == Found(View(), handle, now)
    {
      if handle !in byHandle {
        return None;
      }
      var token := byHandle[handle];
      if token !in tokens || tokens[token].used || now > tokens[token].expiresAt {
        return None;
      }
      r := Some(token);
    }

    method ClaimToken(token: Token, now: Time) returns (r: Option<Claim>)
      modifies this
      ensures (View(), r) == Consumed(old(View()), token, now)
    {
      if token !in tokens {
        return None;
      }
      var t := tokens[token];
      if t.used || now > t.expiresAt {
        DeleteToken(token);
        return None;
      }
      tokens := tokens[token := t.(used := true)];
      if t.handle.Some? {
        byHandle := byHandle - {t.handle.value};
      }
      r := Some(Claim(t.name, t.handle, t.jwt));
    }
  }

  // ---------------------------------------------------------------- every run

  /** The coordinator with its history: every token as minted, and the successful claims in order. */
  datatype State = State(clock: Time, c: Coord, minted: map<Token, HttpToken>, claims: seq<Token>)

  datatype Op =
    | Wait(d: nat)
    | Mint(token: Token, name: string, ttl: int, handle: Option<Id>, jwt: string)
    | TryClaim(token: Token)

  /** Tokens and prepared handles are fresh. */
  ghost predicate CanDo(s: State, op: Op) {
    op.Mint? ==>
      op.token !in s.minted &&
      (op.handle.Some? ==> forall t :: t in s.minted ==> s.minted[t].handle != op.handle)
  }

  ghost function Do(s: State, op: Op): State {
    match op
    case Wait(d) => s.(clock := s.clock + d)
    case Mint(token, name, ttl, handle, jwt) =>
      var t := NewToken(name, ttl, handle, jwt, s.clock);
      s.(c := Minted(s.c, token, t, s.clock), minted := s.minted[token := t])
    case TryClaim(token) =>
      var (c, r) := Consumed(s.c, token, s.clock);
      s.(c := c, claims := if r.Some? then s.claims + [token] else s.claims)
  }

  ghost predicate IsRun(trace: seq<State>, ops: seq<Op>) {
    && |trace| == |ops| + 1
    && trace[0] == State(trace[0].clock, Coord(map[], map[]), map[], [])
    && forall i :: 0 <= i < |ops| ==> CanDo(trace[i], ops[i]) && trace[i + 1] == Do(trace[i], ops[i])
  }

  /** `byHandle` is exactly the inverse of the unused tokens that carry a handle. */
  ghost predicate Inverse(c: Coord) {
    && (forall h :: h in c.byHandle ==>
          c.byHandle[h] in c.tokens && !c.tokens[c.byHandle[h]].used && c.tokens[c.byHandle[h]].handle == Some(h))
    && (forall t :: t in c.tokens && !c.tokens[t].used && c.tokens[t].handle.Some? ==>
          c.tokens[t].handle.value in c.byHandle && c.byHandle[c.tokens[t].handle.value] == t)
  }

  /** A token is as minted but for its used flag, and it is gone only when claimed or expired. */
  ghost predicate TokensInv(s: State) {
    && s.c.tokens.Keys <= s.minted.Keys
    && (forall t :: t in s.claims ==> t in s.minted)
    && (forall t :: t in s.minted ==> !s.minted[t].used)
    && (forall t :: t in s.c.tokens ==> s.c.tokens[t] == s.minted[t].(used := t in s.claims))
    && (forall t :: t in s.minted && t !in s.c.tokens ==> t in s.claims || IsExpired(s.minted[t], s.clock))
  }

  ghost predicate HandlesInv(s: State) {
    forall t, u :: t in s.minted && u in s.minted && s.minted[t].handle.Some? && s.minted[t].handle == s.minted[u].handle ==> t == u
  }

  ghost predicate Inv(s: State) {
    Inverse(s.c) && TokensInv(s) && HandlesInv(s) && NoDup(s.claims)
  }

  lemma PrunedKeeps(s: State)
    requires Inv(s)
    ensures Inv(s.(c := Pruned(s.c, s.clock)))
  {
  }

  /** A fresh token with a fresh handle joins both maps. */
  lemma AddKeepsInverse(c: Coord, token: Token, t: HttpToken)
    requires Inverse(c) && token !in c.tokens && !t.used
    requires t.handle.Some? ==> t.handle.value !in c.byHandle
    ensures Inverse(Coord(c.tokens[token := t], if t.handle.Some? then c.byHandle[t.handle.value := token] else c.byHandle))
  {
  }

  lemma AddKeepsTokens(s: State, c: Coord, token: Token, t: HttpToken)
    requires TokensInv(s) && token !in s.minted && !t.used
    requires c.tokens == s.c.tokens[token := t]
    ensures TokensInv(s.(c := c, minted := s.minted[token := t]))
  {
  }

  lemma HandleIsFree(s: State, op: Op)
    requires Inverse(s.c) && TokensInv(s) && CanDo(s, op) && op.Mint?
    ensures op.handle.Some? ==> op.handle.value !in s.c.byHandle
  {
    assert forall h :: h in s.c.byHandle ==> s.c.byHandle[h] in s.minted && s.minted[s.c.byHandle[h]].handle == Some(h);
  }

  lemma MintKeeps(s: State, op: Op)
    requires Inv(s) && CanDo(s, op) && op.Mint?
    ensures Inv(Do(s, op))
  {
    var p := s.(c := Pruned(s.c, s.clock));
    var t := NewToken(op.name, op.ttl, op.handle, op.jwt, s.clock);
    PrunedKeeps(s);
    HandleIsFree(p, op);
    AddKeepsInverse(p.c, op.token, t);
    AddKeepsTokens(p, Do(s, op).c, op.token, t);
  }

  lemma ClaimKeepsInverse(s: State, token: Token)
    requires Inverse(s.c) && TokensInv(s) && HandlesInv(s)
    ensures Inverse(Consumed(s.c, token, s.clock).0)
  {
    if token in s.c.tokens {
      var t := s.c.tokens[token];
      OwnHandle(s, token);
      if t.used || IsExpired(t, s.clock) {
        RemoveKeepsInverse(s.c, token);
      } else {
        UseKeepsInverse(s.c, token);
      }
    }
  }

  /** No other token stands under the handle of this one. */
  ghost predicate OwnsHandle(c: Coord, token: Token)
    requires token in c.tokens
  {
    forall h :: h in c.byHandle && c.tokens[token].handle == Some(h) ==> c.byHandle[h] == token
  }

  lemma OwnHandle(s: State, token: Token)
    requires Inverse(s.c) && TokensInv(s) && HandlesInv(s) && token in s.c.tokens
    ensures OwnsHandle(s.c, token)
  {
    forall h | h in s.c.byHandle && s.c.tokens[token].handle == Some(h) ensures s.c.byHandle[h] == token {
      assert s.minted[s.c.byHandle[h]].handle == Some(h);
    }
  }

  lemma RemoveKeepsInverse(c: Coord, token: Token)
    requires Inverse(c) && token in c.tokens && OwnsHandle(c, token)
    ensures Inverse(Coord(c.tokens - {token}, DropHandle(c.byHandle, c.tokens[token].handle)))
  {
  }

  lemma UseKeepsInverse(c: Coord, token: Token)
    requires Inverse(c) && token in c.tokens && OwnsHandle(c, token)
    ensures Inverse(Coord(c.tokens[token := c.tokens[token].(used := true)], DropHandle(c.byHandle, c.tokens[token].handle)))
  {
  }

  lemma ClaimKeepsTokens(s: State, op: Op)
    requires TokensInv(s) && op.TryClaim?
    ensures TokensInv(Do(s, op))
  {
  }

  lemma ClaimKeepsLog(s: State, op: Op)
    requires TokensInv(s) && NoDup(s.claims) && op.TryClaim?
    ensures NoDup(Do(s, op).claims)
  {
    if Consumed(s.c, op.token, s.clock).1.Some? {
      assert op.token !in s.claims;
      NoDupSnoc(s.claims, op.token);
    }
  }

  lemma ClaimKeeps(s: State, op: Op)
    requires Inv(s) && op.TryClaim?
    ensures Inv(Do(s, op))
  {
    ClaimKeepsInverse(s, op.token);
    ClaimKeepsTokens(s, op);
    ClaimKeepsLog(s, op);
  }

  lemma {:induction false} RunInv(trace: seq<State>, ops: seq<Op>, i: nat)
    requires IsRun(trace, ops) && i < |trace|
    ensures Inv(trace[i])
  {
    if i > 0 {
      RunInv(trace, ops, i - 1);
      match ops[i - 1]
      case Wait(_) =>
      case Mint(_, _, _, _, _) => MintKeeps(trace[i - 1], ops[i - 1]);
      case TryClaim(_) => ClaimKeeps(trace[i - 1], ops[i - 1]);
    }
  }

  /** In every reachable state `byHandle` is exactly the inverse of the unused handle-bearing tokens. */
  lemma ByHandleIsInverse(trace: seq<State>, ops: seq<Op>, i: nat)
    requires IsRun(trace, ops) && i < |trace|
    ensures Inverse(trace[i].c)
  {
    RunInv(trace, ops, i);
  }

  /** Each token is claimed successfully at most once over a whole run. */
  lemma ClaimedAtMostOnce(trace: seq<State>, ops: seq<Op>, i: nat, x: nat, y: nat)
    requires IsRun(trace, ops) && i < |trace| && x < y < |trace[i].claims|
    ensures trace[i].claims[x] != trace[i].claims[y]
  {
    RunInv(trace, ops, i);
  }

  /** Operation `j` mints the token. */
  ghost predicate MintedBy(ops: seq<Op>, j: nat, token: Token)
    requires j < |ops|
  {
    ops[j].Mint? && ops[j].token == token
  }

  /** The end of the life of an endpoint minted by operation `j`; without a TTL it lives five minutes. */
  ghost function EndOfLife(trace: seq<State>, ops: seq<Op>, j: nat): Time
    requires j < |ops| < |trace| && ops[j].Mint?
  {
    trace[j].clock + if ops[j].ttl <= 0 then 300_000_000_000 else ops[j].ttl
  }

  /** What a claim of that endpoint hands over: the name, by default "upload", the handle and the caller's
      credentials. */
  ghost function HandedOver(ops: seq<Op>, j: nat): Claim
    requires j < |ops| && ops[j].Mint?
  {
    Claim(if ops[j].name == "" then "upload" else ops[j].name, ops[j].handle, ops[j].jwt)
  }

  /** Operation `k` is a claim of the token that succeeds. */
  ghost predicate ClaimedBy(trace: seq<State>, ops: seq<Op>, k: nat, token: Token)
    requires k < |ops| < |trace|
  {
    ops[k] == TryClaim(token) && Consumed(trace[k].c, token, trace[k].clock).1.Some?
  }

  /** The token's mint and its claims, as the history has them. */
  ghost predicate TokenHistory(trace: seq<State>, ops: seq<Op>, i: nat, token: Token)
    requires i < |trace| == |ops| + 1
  {
    && (token in trace[i].minted <==> exists j :: 0 <= j < i && MintedBy(ops, j, token))
    && (forall j :: 0 <= j < i && MintedBy(ops, j, token) ==>
          token in trace[i].minted &&
          trace[i].minted[token] == HttpToken(HandedOver(ops, j).name, EndOfLife(trace, ops, j), false, ops[j].handle, ops[j].jwt))
    && (token in trace[i].claims <==> exists k :: 0 <= k < i && ClaimedBy(trace, ops, k, token))
  }

  /** What one operation means for one token. */
  ghost predicate TokenMoves(s: State, op: Op, n: State, token: Token) {
    && (token in n.claims <==> token in s.claims || (op == TryClaim(token) && Consumed(s.c, token, s.clock).1.Some?))
    && (if op.Mint? && op.token == token
        then token !in s.minted && token in n.minted && n.minted[token] == NewToken(op.name, op.ttl, op.handle, op.jwt, s.clock)
        else (token in n.minted <==> token in s.minted) && (token in s.minted ==> n.minted[token] == s.minted[token]))
  }

  lemma StepMoves(s: State, op: Op, token: Token)
    requires CanDo(s, op)
    ensures TokenMoves(s, op, Do(s, op), token)
  {
  }

  lemma HistoryNext(trace: seq<State>, ops: seq<Op>, r: nat, token: Token)
    requires r + 1 < |trace| == |ops| + 1 && TokenHistory(trace, ops, r, token)
    requires TokenMoves(trace[r], ops[r], trace[r + 1], token)
    ensures TokenHistory(trace, ops, r + 1, token)
  {
    assert ClaimedBy(trace, ops, r, token) <==> ops[r] == TryClaim(token) && Consumed(trace[r].c, token, trace[r].clock).1.Some?;
    if MintedBy(ops, r, token) {
      assert forall j :: 0 <= j < r ==> !MintedBy(ops, j, token);
    }
  }

  ghost predicate TokenMoving(trace: seq<State>, ops: seq<Op>, token: Token) {
    && |trace| == |ops| + 1 && token !in trace[0].minted && token !in trace[0].claims
    && forall k :: 0 <= k < |ops| ==> TokenMoves(trace[k], ops[k], trace[k + 1], token)
  }

  lemma RunMoves(trace: seq<State>, ops: seq<Op>, token: Token)
    requires IsRun(trace, ops)
    ensures TokenMoving(trace, ops, token)
  {
    forall k | 0 <= k < |ops| ensures TokenMoves(trace[k], ops[k], trace[k + 1], token) {
      StepMoves(trace[k], ops[k], token);
    }
  }

  lemma {:induction false} HistoryAlong(trace: seq<State>, ops: seq<Op>, i: nat, token: Token)
    requires TokenMoving(trace, ops, token) && i < |trace|
    ensures TokenHistory(trace, ops, i, token)
  {
    if i > 0 {
      HistoryAlong(trace, ops, i - 1, token);
      assert TokenMoves(trace[i - 1], ops[i - 1], trace[i - 1 + 1], token);
      HistoryNext(trace, ops, i - 1, token);
    }
  }

  lemma HistoryExact(trace: seq<State>, ops: seq<Op>, i: nat, token: Token)
    requires IsRun(trace, ops) && i < |trace|
    ensures TokenHistory(trace, ops, i, token)
  {
    RunMoves(trace, ops, token);
    HistoryAlong(trace, ops, i, token);
  }

  /** A claim succeeds exactly when the token was minted, no claim of it has succeeded before and its life is
      not over; it hands over what the mint was given. */
  lemma ClaimExact(trace: seq<State>, ops: seq<Op>, i: nat, token: Token)
    requires IsRun(trace, ops) && i < |trace|
    ensures var r := Consumed(trace[i].c, token, trace[i].clock).1;
            && (r.Some? <==>
                  (exists j :: 0 <= j < i && MintedBy(ops, j, token) && trace[i].clock <= EndOfLife(trace, ops, j)) &&
                  (forall k :: 0 <= k < i ==> !ClaimedBy(trace, ops, k, token)))
            && (forall j :: 0 <= j < i && MintedBy(ops, j, token) && r.Some? ==> r == Some(HandedOver(ops, j)))
  {
    RunInv(trace, ops, i);
    HistoryExact(trace, ops, i, token);
  }

  /** FindUpload returns precisely the token minted with the handle, while it is unclaimed and alive. */
  lemma FindExact(trace: seq<State>, ops: seq<Op>, i: nat, h: Id, token: Token)
    requires IsRun(trace, ops) && i < |trace|
    ensures Found(trace[i].c, h, trace[i].clock) == Some(token) <==>
            (exists j :: 0 <= j < i && MintedBy(ops, j, token) && ops[j].handle == Some(h) && trace[i].clock <= EndOfLife(trace, ops, j)) &&
            (forall k :: 0 <= k < i ==> !ClaimedBy(trace, ops, k, token))
  {
    RunInv(trace, ops, i);
    HistoryExact(trace, ops, i, token);
    FoundInState(trace[i], h, token);
  }

  lemma FoundInState(s: State, h: Id, token: Token)
    requires Inv(s)
    ensures Found(s.c, h, s.clock) == Some(token) <==>
            token in s.minted && s.minted[token].handle == Some(h) && token !in s.claims && s.clock <= s.minted[token].expiresAt
  {
  }

  /** A mint clears the table: it leaves only endpoints whose life is not over, and drops no such endpoint. */
  lemma MintClears(s: State, op: Op, t: Token)
    requires Inv(s) && CanDo(s, op) && op.Mint? && t != op.token
    ensures t in Do(s, op).c.tokens <==> t in s.c.tokens && s.clock <= s.minted[t].expiresAt
    ensures t in s.c.tokens ==> t in s.minted
  {
  }

  /** A refused claim forgets the token, so a spent endpoint is as unknown as one that never was; a successful
      one keeps it, used. */
  lemma ClaimForgets(c: Coord, token: Token, now: Time)
    ensures Consumed(c, token, now).1.None? <==> token !in Consumed(c, token, now).0.tokens
    ensures forall t :: t != token ==> (t in Consumed(c, token, now).0.tokens <==> t in c.tokens)
  {
  }

  // ---------------------------------------------------------------- the endpoint and its prepared task

  /** Prepare registers the task at one clock read and its endpoint at a later one. A prune drops the
      task while the endpoint is live exactly in the gap that the two reads leave at the end. */
  lemma EndpointSkew(cfg: Config, m: Mgr, id: Id, minted: Time, ttl: int, now: Time, batch: seq<Id>)
    requires WellFormed(m) && IsBatch(cfg, m, now, batch)
    requires id in m.tasks && m.objs[id].state.Prepared? && m.tasks[id].preparedTTL == ttl > 0
    ensures id !in Prune(cfg, m, now, batch).tasks && !IsExpired(NewToken("", ttl, Some(id), "", minted), now) <==>
            cfg.ttl > 0 && m.objs[id].createdAt + ttl < now <= minted + ttl
  {
    PruneFrame(cfg, m, now, batch);
  }

  /** So an endpoint never outlives its task exactly when the two reads agree (or pruning is off). */
  lemma EndpointNeverOutlives(cfg: Config, m: Mgr, id: Id, minted: Time, ttl: int)
    requires WellFormed(m)
    requires id in m.tasks && m.objs[id].state.Prepared? && m.tasks[id].preparedTTL == ttl > 0
    requires m.objs[id].createdAt <= minted
    ensures (forall now: Time :: now <= minted + ttl ==> cfg.ttl <= 0 || id !in EvictSet(cfg, m, now)) <==>
            cfg.ttl <= 0 || m.objs[id].createdAt == minted
  {
    if m.objs[id].createdAt < minted {
      assert id in EvictSet(cfg, m, minted + ttl);
    }
  }
}
