/**
 * The login-token part of user_repository.go over the users table, kept in
 * primary-key order so that a query's first match is the first hit in the
 * sequence. The clock, the random source and which saves the database
 * refuses are given; times are whole units since an epoch, and the Go zero
 * time is 0.
 */
module UserRepository {
  import opened Outcomes
  import opened Text

  datatype User = User(id: string, email: string, token: string, tokenCreatedAt: int)

  datatype UserError = NotFound | TokenExpired | SaveFailed | NoUniqueToken

  /** How many candidates the unique-token loop draws at most. */
  const TokenAttempts: nat := 10

  /** The index of the first user satisfying a column condition, as `First` finds it. */
  function FirstWhere(users: seq<User>, p: User -> bool): (k: Option<nat>)
    ensures k.None? <==> forall i :: 0 <= i < |users| ==> !p(users[i])
    ensures k.Some? ==> k.value < |users| && p(users[k.value]) && forall i :: 0 <= i < k.value ==> !p(users[i])
  {
    if users == [] then None
    else if p(users[0]) then Some(0)
    else
      var rest := FirstWhere(users[1..], p);
      assert forall i :: 1 <= i < |users| ==> users[i] == users[1..][i - 1];
      if rest.None? then None else Some(rest.value + 1)
  }

  /** `%06d` of a draw below one million: six zero-padded decimal digits. */
  function SixDigits(n: nat): string
    requires n < 1000000
  {
    ZeroPad(Decimal(n), 6)
  }

  /** The token always has exactly six characters, all digits, and reads back as the draw. */
  lemma SixDigitsShape(n: nat)
    requires n < 1000000
    ensures |SixDigits(n)| == 6 && AllDigits(SixDigits(n)) && ParseDigits(SixDigits(n)) == n
  {
    assert Pow10(6) == 1000000 by {
      assert Pow10(1) == 10;
      assert Pow10(2) == 100;
      assert Pow10(3) == 1000;
      assert Pow10(4) == 10000;
      assert Pow10(5) == 100000;
    }
    PaddedDecimal(n, 6);
  }

  /** Different draws give different tokens. */
  lemma SixDigitsInjective(m: nat, n: nat)
    requires m < 1000000 && n < 1000000 && SixDigits(m) == SixDigits(n)
    ensures m == n
  {
    SixDigitsShape(m);
    SixDigitsShape(n);
  }

  /** The candidate of attempt `k`: `draw` stands for the seeded generator; `Intn(1000000)` keeps it below one million. */
  function Candidate(draw: nat -> nat, k: nat): string {
    SixDigits(draw(k) % 1000000)
  }

  predicate TokenTaken(users: seq<User>, token: string) {
    exists i :: 0 <= i < |users| && users[i].token == token
  }

  /** Attempt `k` ends the loop: its count query failed, leaving the count at zero, or no user holds its candidate. */
  predicate Accepted(users: seq<User>, draw: nat -> nat, countFails: nat -> bool, k: nat) {
    countFails(k) || !TokenTaken(users, Candidate(draw, k))
  }

  /** The first attempt from `k` on that ends the loop, if any of the ten does. */
  function AcceptedFrom(users: seq<User>, draw: nat -> nat, countFails: nat -> bool, k: nat): (a: Option<nat>)
    ensures a.Some? ==> k <= a.value < TokenAttempts && Accepted(users, draw, countFails, a.value)
    ensures forall b :: k <= b < TokenAttempts && (a.None? || b < a.value) ==> !Accepted(users, draw, countFails, b)
    decreases TokenAttempts - k
  {
    if k >= TokenAttempts then None
    else if Accepted(users, draw, countFails, k) then Some(k)
    else AcceptedFrom(users, draw, countFails, k + 1)
  }

  /** The unique-token loop: the candidate of the first accepted attempt, or "" when all ten are taken. */
  function UniqueFrom(users: seq<User>, draw: nat -> nat, countFails: nat -> bool, k: nat): string {
    match AcceptedFrom(users, draw, countFails, k)
    case None => ""
    case Some(a) => Candidate(draw, a)
  }

  /** A candidate is never "", so "" means all ten attempts found their candidate taken. */
  lemma UniqueEmpty(users: seq<User>, draw: nat -> nat, countFails: nat -> bool)
    ensures UniqueFrom(users, draw, countFails, 0) == "" <==>
      forall b :: 0 <= b < TokenAttempts ==> !Accepted(users, draw, countFails, b)
  {
    var a := AcceptedFrom(users, draw, countFails, 0);
    if a.Some? {
      assert |Candidate(draw, a.value)| >= 6;
    }
  }

  /** Unless a count query failed, the token is held by no user; it is one of the ten candidates. */
  lemma UniqueFree(users: seq<User>, draw: nat -> nat, countFails: nat -> bool)
    ensures var t := UniqueFrom(users, draw, countFails, 0);
      t != "" ==> exists a :: 0 <= a < TokenAttempts && t == Candidate(draw, a) && (countFails(a) || !TokenTaken(users, t))
    ensures (forall b :: 0 <= b < TokenAttempts ==> !countFails(b)) ==> !TokenTaken(users, UniqueFrom(users, draw, countFails, 0)) || UniqueFrom(users, draw, countFails, 0) == ""
  {
  }

  /** The token columns cleared, as after removing a token. */
  function Cleared(u: User): User {
    u.(token := "", tokenCreatedAt := 0)
  }

  /**
   * Logging in with a token: an unknown token changes nothing; a known one is
   * cleared whether it has expired or not, so it works at most once. It has
   * expired when strictly more than `valid` has passed since it was made.
   */
  function ByToken(users: seq<User>, token: string, valid: int, now: int, saveFails: bool): (out: (seq<User>, Result<User, UserError>))
    ensures FirstWhere(users, (u: User) => u.token == token).None? ==> out == (users, Err(NotFound))
    ensures out.1.Err? && out.1.error != TokenExpired ==> out.0 == users
    ensures var k := FirstWhere(users, (u: User) => u.token == token);
      k.Some? && !saveFails ==>
        out.0 == users[k.value := Cleared(users[k.value])]
        && (out.1.Ok? <==> now - users[k.value].tokenCreatedAt <= valid)
        && (out.1.Ok? ==> out.1.value == Cleared(users[k.value]))
        && (out.1.Err? ==> out.1.error == TokenExpired)
    ensures out.1.Ok? ==> out.1.value.token == "" && out.1.value.tokenCreatedAt == 0
  {
    match FirstWhere(users, (u: User) => u.token == token)
    case None => (users, Err(NotFound))
    case Some(k) =>
      if saveFails then (users, Err(SaveFailed))
      else
        var cleared := users[k := Cleared(users[k])];
        if now - users[k].tokenCreatedAt > valid then (cleared, Err(TokenExpired))
        else (cleared, Ok(Cleared(users[k])))
  }

  /** After a successful login the same token no longer logs in as that user. */
  lemma TokenSingleUse(users: seq<User>, token: string, valid: int, now: int, later: int)
    requires token != ""
    requires ByToken(users, token, valid, now, false).1.Ok?
    ensures var (after, r) := ByToken(users, token, valid, now, false);
      var again := ByToken(after, token, valid, later, false);
      again.1.Ok? ==> again.1.value.id != r.value.id || exists i, j :: 0 <= i < j < |users| && users[i].id == users[j].id
  {
    var k := FirstWhere(users, (u: User) => u.token == token).value;
    var after := ByToken(users, token, valid, now, false).0;
    var again := FirstWhere(after, (u: User) => u.token == token);
    if again.Some? {
      assert again.value != k;
    }
  }

  /**
   * Generating a token for an email: an unknown email or an exhausted loop
   * changes nothing; otherwise the first user with that email gets the token
   * and the current time, and is saved.
   */
  function GenerateOutcome(users: seq<User>, email: string, draw: nat -> nat, countFails: nat -> bool, now: int, saveFails: bool): (out: (seq<User>, Result<User, UserError>))
    ensures FirstWhere(users, (u: User) => u.email == email).None? ==> out == (users, Err(NotFound))
    ensures out.1.Err? ==> out.0 == users
    ensures out.1.Ok? ==>
      var k := FirstWhere(users, (u: User) => u.email == email).value;
      var t := UniqueFrom(users, draw, countFails, 0);
      t != "" && out.1.value == users[k].(token := t, tokenCreatedAt := now) && out.0 == users[k := out.1.value]
    ensures FirstWhere(users, (u: User) => u.email == email).Some? && !saveFails ==>
      (out.1.Ok? <==> UniqueFrom(users, draw, countFails, 0) != "")
  {
    match FirstWhere(users, (u: User) => u.email == email)
    case None => (users, Err(NotFound))
    case Some(k) =>
      var t := UniqueFrom(users, draw, countFails, 0);
      if t == "" then (users, Err(NoUniqueToken))
      else if saveFails then (users, Err(SaveFailed))
      else
        var u := users[k].(token := t, tokenCreatedAt := now);
        (users[k := u], Ok(u))
  }

  /** The users table and the token operations on it. */
  class Repository {
    const draw: nat -> nat
    const countFails: nat -> bool
    const saveFails: bool
    var users: seq<User>

    constructor(users: seq<User>, draw: nat -> nat, countFails: nat -> bool, saveFails: bool)
      ensures this.users == users && this.draw == draw && this.countFails == countFails && this.saveFails == saveFails
    {
      this.users := users;
      this.draw := draw;
      this.countFails := countFails;
      this.saveFails := saveFails;
    }

    /** Clearing the token columns of user `k` and saving it. */
    method RemoveToken(k: nat) returns (r: Result<User, UserError>)
      requires k < |users|
      modifies this
      ensures saveFails ==> users == old(users) && r == Err(SaveFailed)
      ensures !saveFails ==> users == old(users)[k := Cleared(old(users)[k])] && r == Ok(Cleared(old(users)[k]))
    {
      var u := users[k].(token := "", tokenCreatedAt := 0);
      if saveFails {
        return Err(SaveFailed);
      }
      users := users[k := u];
      r := Ok(u);
    }

    method GetByToken(token: string, valid: int, now: int) returns (r: Result<User, UserError>)
      modifies this
      ensures (users, r) == ByToken(old(users), token, valid, now, saveFails)
    {
      var found := FirstWhere(users, (u: User) => u.token == token);
      if found.None? {
        return Err(NotFound);
      }
      var k := found.value;
      var createdAt := users[k].tokenCreatedAt;
      if now - createdAt > valid {
        var removed := RemoveToken(k);
        if removed.Err? {
          return removed;
        }
        return Err(TokenExpired);
      }
      r := RemoveToken(k);
    }

    /** The bounded retry loop: up to ten candidates, the first one no user holds. */
    method GenerateUniqueToken() returns (t: string)
      ensures t == UniqueFrom(users, draw, countFails, 0)
    {
      var k := 0;
      while k < TokenAttempts
        invariant 0 <= k <= TokenAttempts
        invariant AcceptedFrom(users, draw, countFails, k) == AcceptedFrom(users, draw, countFails, 0)
      {
        var candidate := SixDigits(draw(k) % 1000000);
        var taken := if countFails(k) then false else TokenTaken(users, candidate);
        if !taken {
          return candidate;
        }
        k := k + 1;
      }
      t := "";
    }

    method GenerateToken(email: string, now: int) returns (r: Result<User, UserError>)
      modifies this
      ensures (users, r) == GenerateOutcome(old(users), email, draw, countFails, now, saveFails)
    {
      var found := FirstWhere(users, (u: User) => u.email == email);
      if found.None? {
        return Err(NotFound);
      }
      var k := found.value;
      var t := GenerateUniqueToken();
      if t == "" {
        return Err(NoUniqueToken);
      }
      var u := users[k].(token := t, tokenCreatedAt := now);
      if saveFails {
        return Err(SaveFailed);
      }
      users := users[k := u];
      r := Ok(u);
    }
  }
}
