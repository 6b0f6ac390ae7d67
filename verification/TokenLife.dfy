/** How long a write token validates (rust/mainline/src/rpc/server/tokens.rs) while the server handles requests:
    the documentation says "within the past 10 minutes". */
module TokenLife {
  import opened Bytes
  import opened Ids
  import opened Nodes
  import opened Messages
  import opened Mutable
  import opened Lrus
  import opened Servers

  // === The secrets of a run ===

  /** Handling the call rotates the secrets. */
  predicate Rotates(st: Store, env: Env, c: Call)
  {
    (env.allow)(c.request, c.from) && ShouldUpdate(st.tokens, c.now)
  }

  lemma {:induction false} TokensStep(st: Store, env: Env, c: Call)
    ensures Step(st, env, c).tokens == if Rotates(st, env, c) then Tokens(st.tokens.currSecret, c.secret, c.now)
        else st.tokens
  {
  }

  function Rotations(st: Store, env: Env, cs: seq<Call>): nat
  {
    if cs == [] then 0
    else
      var n := |cs| - 1;
      Rotations(st, env, cs[..n]) + if Rotates(Run(st, env, cs[..n]), env, cs[n]) then 1 else 0
  }

  /** The secrets the server ever had, oldest first. */
  function Secrets(st: Store, env: Env, cs: seq<Call>): (r: seq<seq<byte>>)
    ensures |r| == 2 + Rotations(st, env, cs)
  {
    if cs == [] then [st.tokens.prevSecret, st.tokens.currSecret]
    else
      var n := |cs| - 1;
      Secrets(st, env, cs[..n]) + if Rotates(Run(st, env, cs[..n]), env, cs[n]) then [cs[n].secret] else []
  }

  /** It keeps the last two. */
  lemma {:induction false} KeepsLastTwo(st: Store, env: Env, cs: seq<Call>)
    ensures var s, t := Secrets(st, env, cs), Run(st, env, cs).tokens;
            t.prevSecret == s[|s| - 2] && t.currSecret == s[|s| - 1]
  {
    if cs != [] {
      KeepsLastTwo(st, env, cs[..|cs| - 1]);
      TokensStep(Run(st, env, cs[..|cs| - 1]), env, cs[|cs| - 1]);
    }
  }

  /** All but the first two secrets came with a call. */
  lemma {:induction false} SecretsOfCalls(st: Store, env: Env, cs: seq<Call>)
    ensures var s := Secrets(st, env, cs);
      && s[1] == st.tokens.currSecret
      && forall j :: 2 <= j < |s| ==> exists k :: 0 <= k < |cs| && cs[k].secret == s[j]
  {
    if cs != [] {
      var n := |cs| - 1;
      var s, s' := Secrets(st, env, cs[..n]), Secrets(st, env, cs);
      SecretsOfCalls(st, env, cs[..n]);
      forall j | 2 <= j < |s'| ensures exists k :: 0 <= k < |cs| && cs[k].secret == s'[j] {
        if j < |s| {
          var k :| 0 <= k < n && cs[..n][k].secret == s[j];
          assert cs[k].secret == s'[j];
        }
      }
    }
  }

  // === When a token validates ===

  /** Over any run, a token validates for its address exactly when the secrets were rotated at most once since it was
      given out, or one of the two secrets kept gives the same digest. */
  lemma {:induction false} TokenValidatesIff(st: Store, env: Env, cs: seq<Call>, from: SocketAddr, later: SocketAddr)
    requires from.ip == later.ip
    ensures var s, token := Secrets(st, env, cs), Generate(env, st.tokens, from);
      Validates(env, Run(st, env, cs).tokens, later, token) <==>
        (Rotations(st, env, cs) <= 1 || TokenFor(env, from.ip, s[|s| - 1]) == token
          || TokenFor(env, from.ip, s[|s| - 2]) == token)
  {
    KeepsLastTwo(st, env, cs);
    SecretsOfCalls(st, env, cs);
  }

  /** No secret drawn later happens to give the same token. */
  ghost predicate NoCollision(env: Env, ip: Ipv4, token: seq<byte>, cs: seq<Call>)
  {
    forall k :: 0 <= k < |cs| ==> TokenFor(env, ip, cs[k].secret) != token
  }

  /** Without a collision, exactly when the secrets were rotated at most once. */
  lemma {:induction false} ValidExactlyForOneRotation(st: Store, env: Env, cs: seq<Call>, from: SocketAddr,
      later: SocketAddr)
    requires from.ip == later.ip && NoCollision(env, from.ip, Generate(env, st.tokens, from), cs)
    ensures Validates(env, Run(st, env, cs).tokens, later, Generate(env, st.tokens, from))
       <==> Rotations(st, env, cs) <= 1
  {
    var s := Secrets(st, env, cs);
    TokenValidatesIff(st, env, cs, from, later);
    SecretsOfCalls(st, env, cs);
    if |s| >= 4 {
      var a :| 0 <= a < |cs| && cs[a].secret == s[|s| - 1];
      var b :| 0 <= b < |cs| && cs[b].secret == s[|s| - 2];
    }
  }

  // === Rotations and time ===

  ghost predicate CallsInTime(cs: seq<Call>, start: nat)
  {
    cs != [] ==>
      CallsInTime(cs[..|cs| - 1], start) && (if |cs| == 1 then start else cs[|cs| - 2].now) <= cs[|cs| - 1].now
  }

  lemma {:induction false} NotBeforeStart(cs: seq<Call>, start: nat)
    requires CallsInTime(cs, start) && cs != []
    ensures start <= cs[|cs| - 1].now
  {
    if |cs| > 1 {
      NotBeforeStart(cs[..|cs| - 1], start);
    }
  }

  /** A rotation needs five minutes since the last one. */
  lemma {:induction false} RotationsTakeTime(st: Store, env: Env, cs: seq<Call>, start: nat)
    requires CallsInTime(cs, start)
    requires cs != [] ==> cs[|cs| - 1].now <= start + TOKEN_ROTATE_INTERVAL
    ensures Rotations(st, env, cs) <= 1
    ensures Rotations(st, env, cs) == 1 ==> Run(st, env, cs).tokens.lastUpdated >= start
  {
    if cs != [] {
      var n := |cs| - 1;
      NotBeforeStart(cs, start);
      RotationsTakeTime(st, env, cs[..n], start);
      TokensStep(Run(st, env, cs[..n]), env, cs[n]);
    }
  }

  /** A token validates for its address at least five minutes after it was given out, whatever is handled in
      between, the call it comes with included. */
  lemma {:induction false} TokenLives(st: Store, env: Env, cs: seq<Call>, start: nat, from: SocketAddr,
      later: SocketAddr)
    requires CallsInTime(cs, start) && from.ip == later.ip
    requires cs != [] ==> cs[|cs| - 1].now <= start + TOKEN_ROTATE_INTERVAL
    ensures Validates(env, Run(st, env, cs).tokens, later, Generate(env, st.tokens, from))
  {
    RotationsTakeTime(st, env, cs, start);
    TokenValidatesIff(st, env, cs, from, later);
  }

  lemma {:induction false} MoreCallsMoreRotations(st: Store, env: Env, cs: seq<Call>, i: nat)
    requires i <= |cs|
    ensures Rotations(st, env, cs[..i]) <= Rotations(st, env, cs)
  {
    if i < |cs| {
      MoreCallsMoreRotations(st, env, cs[..|cs| - 1], i);
      assert cs[..|cs| - 1][..i] == cs[..i];
    } else {
      assert cs[..i] == cs;
    }
  }

  lemma {:induction false} UpdatedBefore(st: Store, env: Env, cs: seq<Call>, start: nat)
    requires CallsInTime(cs, start) && st.tokens.lastUpdated <= start
    ensures Run(st, env, cs).tokens.lastUpdated <= if cs == [] then start else cs[|cs| - 1].now
  {
    if cs != [] {
      var n := |cs| - 1;
      UpdatedBefore(st, env, cs[..n], start);
      TokensStep(Run(st, env, cs[..n]), env, cs[n]);
    }
  }

  lemma {:induction false} InTimeUpTo(cs: seq<Call>, start: nat, i: nat)
    requires CallsInTime(cs, start) && i <= |cs|
    ensures CallsInTime(cs[..i], start)
  {
    if i < |cs| {
      InTimeUpTo(cs[..|cs| - 1], start, i);
      assert cs[..|cs| - 1][..i] == cs[..i];
    } else {
      assert cs[..i] == cs;
    }
  }

  /** A call that comes late enough has seen a rotation, by itself or before. */
  lemma {:induction false} LateCallRotates(st: Store, env: Env, cs: seq<Call>, i: nat, m: nat, since: nat)
    requires i < |cs| && m <= i && (env.allow)(cs[i].request, cs[i].from)
    requires Run(st, env, cs[..m]).tokens.lastUpdated <= since && cs[i].now > since + TOKEN_ROTATE_INTERVAL
    ensures Rotations(st, env, cs[..i + 1]) > Rotations(st, env, cs[..m])
  {
    assert cs[..i + 1][..i] == cs[..i] && cs[..i + 1][..m] == cs[..m] && cs[..i][..m] == cs[..m];
    MoreCallsMoreRotations(st, env, cs[..i], m);
    if Rotations(st, env, cs[..i]) == Rotations(st, env, cs[..m]) {
      SameTokens(st, env, cs[..i], m);
    }
  }

  lemma {:induction false} SameTokens(st: Store, env: Env, cs: seq<Call>, m: nat)
    requires m <= |cs| && Rotations(st, env, cs) == Rotations(st, env, cs[..m])
    ensures Run(st, env, cs).tokens == Run(st, env, cs[..m]).tokens
  {
    if m < |cs| {
      var n := |cs| - 1;
      assert cs[..n][..m] == cs[..m];
      MoreCallsMoreRotations(st, env, cs[..n], m);
      SameTokens(st, env, cs[..n], m);
      TokensStep(Run(st, env, cs[..n]), env, cs[n]);
    } else {
      assert cs[..m] == cs;
    }
  }

  /** One call late for the last rotation, and one late for that call. */
  ghost predicate TwoLateCalls(st: Store, env: Env, cs: seq<Call>, i: nat, j: nat)
    requires i < j < |cs|
  {
    && (env.allow)(cs[i].request, cs[i].from) && (env.allow)(cs[j].request, cs[j].from)
    && cs[i].now > st.tokens.lastUpdated + TOKEN_ROTATE_INTERVAL
    && cs[j].now > cs[i].now + TOKEN_ROTATE_INTERVAL
  }

  lemma {:induction false} UpdatedBeforeCall(st: Store, env: Env, cs: seq<Call>, start: nat, i: nat)
    requires CallsInTime(cs, start) && st.tokens.lastUpdated <= start && i < |cs|
    ensures Run(st, env, cs[..i + 1]).tokens.lastUpdated <= cs[i].now
  {
    InTimeUpTo(cs, start, i + 1);
    UpdatedBefore(st, env, cs[..i + 1], start);
  }

  lemma {:induction false} TwoRotations(st: Store, env: Env, cs: seq<Call>, start: nat, i: nat, j: nat)
    requires CallsInTime(cs, start) && st.tokens.lastUpdated <= start && i < j < |cs| && TwoLateCalls(st, env, cs, i, j)
    ensures Rotations(st, env, cs) >= 2
  {
    assert cs[..0] == [];
    LateCallRotates(st, env, cs, i, 0, st.tokens.lastUpdated);
    UpdatedBeforeCall(st, env, cs, start, i);
    LateCallRotates(st, env, cs, j, i + 1, cs[i].now);
    MoreCallsMoreRotations(st, env, cs, j + 1);
  }

  /** A busy server forgets: a call more than five minutes after the last rotation, and another more than five
      minutes after that one, end a token. */
  lemma {:induction false} BusyServerForgets(st: Store, env: Env, cs: seq<Call>, start: nat, from: SocketAddr, i: nat,
      j: nat)
    requires CallsInTime(cs, start) && st.tokens.lastUpdated <= start && i < j < |cs| && TwoLateCalls(st, env, cs, i, j)
    requires NoCollision(env, from.ip, Generate(env, st.tokens, from), cs)
    ensures !Validates(env, Run(st, env, cs).tokens, from, Generate(env, st.tokens, from))
  {
    TwoRotations(st, env, cs, start, i, j);
    ValidExactlyForOneRotation(st, env, cs, from, from);
  }

  // === Both sides of ten minutes ===

  const TEN_MINUTES := 10 * 60 * 1000

  function OpenEnv(): Env
  {
    Env((r, a) => true, s => s, s => seq(20, _ => 0), Scheme(k => true, (k, m, s) => true), (i, n, m) => true)
  }

  function NewStore(): Store { Store(Caps(1, 1, 1, 1), Tokens([1], [2], 0), [], [], []) }

  function Host(): SocketAddr { SocketAddr(Ipv4(10, 0, 0, 1), 6881) }

  function Ask(t: RequestType, now: nat, secret: seq<byte>): Call
  {
    Call(Directory(seq(20, _ => 0), target => []), Host(), RequestSpecific(seq(20, _ => 0), t), now, secret)
  }

  /** The token handed out at the start, and a put that brings it. */
  function FirstToken(): seq<byte> { Generate(OpenEnv(), NewStore().tokens, Host()) }

  function PutWith(token: seq<byte>, now: nat, secret: seq<byte>): Call
  {
    Ask(PutRequest(token, PutImmutable(seq(20, _ => 0), [])), now, secret)
  }

  /** The answer to a put with the first token depends on the token alone. */
  lemma {:induction false} AnswerToPut(st: Store, now: nat, secret: seq<byte>)
    ensures var c := PutWith(FirstToken(), now, secret);
      Answer(st, OpenEnv(), c) == Some(if Validates(OpenEnv(), Rotated(st.tokens, now, secret), Host(), FirstToken())
          then Ack(c.dir) else Failure(203, "Bad token"))
  {
  }

  lemma {:induction false} TokensAfterTwo(st: Store, env: Env, a: Call, b: Call)
    requires (env.allow)(a.request, a.from) && (env.allow)(b.request, b.from)
    ensures Run(st, env, [a, b]).tokens == Rotated(Rotated(st.tokens, a.now, a.secret), b.now, b.secret)
  {
    assert [a][..0] == [] && Run(st, env, []) == st;
    assert Run(st, env, [a]) == Step(st, env, a);
    assert [a, b][..1] == [a] && Run(st, env, [a, b]) == Step(Run(st, env, [a]), env, b);
    TokensStep(st, env, a);
    TokensStep(Step(st, env, a), env, b);
  }

  /** A token is handed out at five minutes, and a ping comes right after. */
  function Handed(): Call { Ask(GetPeersRequest(seq(20, _ => 0)), TOKEN_ROTATE_INTERVAL, [3]) }

  function Pinged(): Call { Ask(PingRequest, TOKEN_ROTATE_INTERVAL + 1, [4]) }

  /** A token of five minutes and two milliseconds is refused: the secrets were rotated just after it was handed out,
      and again by the put. */
  lemma {:induction false} RefusedBeforeTenMinutes()
    ensures var st, at := Run(NewStore(), OpenEnv(), [Handed(), Pinged()]), 2 * TOKEN_ROTATE_INTERVAL + 2;
      && Generate(OpenEnv(), Rotated(NewStore().tokens, Handed().now, Handed().secret), Host()) == FirstToken()
      && at - Handed().now < TEN_MINUTES
      && Answer(st, OpenEnv(), PutWith(FirstToken(), at, [5])) == Some(Failure(203, "Bad token"))
  {
    var st := Run(NewStore(), OpenEnv(), [Handed(), Pinged()]);
    TokensAfterTwo(NewStore(), OpenEnv(), Handed(), Pinged());
    assert st.tokens == Tokens([2], [4], TOKEN_ROTATE_INTERVAL + 1);
    AnswerToPut(st, 2 * TOKEN_ROTATE_INTERVAL + 2, [5]);
    assert FirstToken()[4] == 2;
    assert TokenFor(OpenEnv(), Host().ip, [4])[4] == 4 && TokenFor(OpenEnv(), Host().ip, [5])[4] == 5;
  }

  /** With no request in between, a token of ten hours is accepted. */
  lemma {:induction false} AcceptedAfterTenMinutes()
    ensures var c := PutWith(FirstToken(), 60 * TEN_MINUTES, [3]); Answer(NewStore(), OpenEnv(), c) == Some(Ack(c.dir))
  {
    AnswerToPut(NewStore(), 60 * TEN_MINUTES, [3]);
  }
}
