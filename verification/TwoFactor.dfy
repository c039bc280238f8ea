/** Two-factor sign-in: recovery codes and the temporary token between password
    and code (internal/auth/twofa_handler.go, totp.go, service.go).
    SHA-256 is an uninterpreted function; whether a TOTP or e-mail code is right,
    and whether PostgreSQL, Redis and the token issuer answer, are inputs. */
module TwoFactor {
  const RECOVERY_CODES := 10
  const TOKEN_LIFE := 300

  type UserId = nat
  type TokenId = nat

  /** The users columns involved; a NULL recovery_codes array is the empty sequence. */
  datatype Account = Account(enabled: bool, codes: seq<string>)

  datatype Token = Token(user: UserId, expires: nat)

  /** `issued` remembers when each token was stored; a token's id is its position there. */
  datatype State = State(accounts: map<UserId, Account>, tokens: map<TokenId, Token>, issued: seq<nat>)

  datatype Attempt =
    | Checked(valid: bool)                   // TOTP or e-mail code
    | Recovery(code: string, saved: bool)    // saved: the UPDATE of recovery_codes succeeds

  datatype Event =
    | Login(user: UserId, now: nat, stored: bool)    // stored: Redis keeps the new token
    | Enable(user: UserId, codes: seq<string>)
    | Regenerate(user: UserId, codes: seq<string>)
    | Disable(user: UserId)
    | Verify(token: TokenId, attempt: Attempt, now: nat, deleted: bool, issues: bool)

  datatype Outcome = SignedIn(user: UserId) | NotSignedIn

  // ----- Specification of the handlers -----

  /** The code a recovery attempt takes away, if it takes one. */
  predicate Consumes(s: State, hash: string -> string, e: Event) {
    && Reaches(s, e) && e.attempt.Recovery? && e.attempt.saved
    && hash(e.attempt.code) in s.accounts[s.tokens[e.token].user].codes
  }

  /** The token is live and its user row is there. */
  predicate Reaches(s: State, e: Event) {
    && e.Verify? && e.token in s.tokens && e.now < s.tokens[e.token].expires
    && s.tokens[e.token].user in s.accounts
  }

  predicate Verified(s: State, hash: string -> string, e: Event) {
    Reaches(s, e) && if e.attempt.Checked? then e.attempt.valid else Consumes(s, hash, e)
  }

  function IndexOf(codes: seq<string>, h: string): (i: nat)
    ensures i <= |codes| && (i < |codes| <==> h in codes)
    ensures i < |codes| ==> codes[i] == h && h !in codes[..i]
  {
    if codes == [] then 0
    else if codes[0] == h then 0
    else
      var i := IndexOf(codes[1..], h);
      assert codes == [codes[0]] + codes[1..];
      assert codes[..i + 1] == [codes[0]] + codes[1..][..i];
      i + 1
  }

  function Without(codes: seq<string>, h: string): seq<string>
    requires h in codes
  {
    var i := IndexOf(codes, h);
    codes[..i] + codes[i + 1..]
  }

  function HashAll(hash: string -> string, codes: seq<string>): seq<string> {
    seq(|codes|, i requires 0 <= i < |codes| => hash(codes[i]))
  }

  function NewCodes(s: State, user: UserId, enabled: bool, codes: seq<string>): State {
    if user in s.accounts then s.(accounts := s.accounts[user := Account(enabled, codes)]) else s
  }

  function Step(s: State, hash: string -> string, e: Event): (State, Outcome) {
    match e
    case Login(user, now, stored) =>
      if user in s.accounts && s.accounts[user].enabled && stored then
        (State(s.accounts, s.tokens[|s.issued| := Token(user, now + TOKEN_LIFE)], s.issued + [now]), NotSignedIn)
      else (s, NotSignedIn)
    case Enable(user, codes) => (NewCodes(s, user, true, HashAll(hash, codes)), NotSignedIn)
    case Regenerate(user, codes) =>
      (NewCodes(s, user, user in s.accounts && s.accounts[user].enabled, HashAll(hash, codes)), NotSignedIn)
    case Disable(user) => (NewCodes(s, user, false, []), NotSignedIn)
    case Verify(token, attempt, now, deleted, issues) =>
      if !Verified(s, hash, e) then (s, NotSignedIn)
      else
        var user := s.tokens[token].user;
        var account := s.accounts[user];
        var accounts := if Consumes(s, hash, e)
                        then s.accounts[user := account.(codes := Without(account.codes, hash(attempt.code)))]
                        else s.accounts;
        var tokens := if deleted then s.tokens - {token} else s.tokens;
        (State(accounts, tokens, s.issued), if issues then SignedIn(user) else NotSignedIn)
  }

  // ----- The handlers -----

  method HashRecoveryCodes(hash: string -> string, codes: seq<string>) returns (hashes: seq<string>)
    ensures hashes == HashAll(hash, codes)
  {
    hashes := [];
    for i := 0 to |codes|
      invariant hashes == HashAll(hash, codes[..i])
    {
      assert codes[..i + 1] == codes[..i] + [codes[i]];
      hashes := hashes + [hash(codes[i])];
    }
    assert codes[..|codes|] == codes;
  }

  /** Index of the first hash that matches, or -1. */
  method VerifyRecoveryCode(hash: string -> string, code: string, hashes: seq<string>) returns (idx: int)
    ensures -1 <= idx < |hashes|
    ensures idx >= 0 ==> hashes[idx] == hash(code) && hash(code) !in hashes[..idx]
    ensures idx < 0 ==> hash(code) !in hashes
  {
    var target := hash(code);
    for i := 0 to |hashes|
      invariant target !in hashes[..i]
    {
      if hashes[i] == target { return i; }
    }
    idx := -1;
  }

  class AuthHandler {
    const hash: string -> string
    var accounts: map<UserId, Account>
    var tokens: map<TokenId, Token>
    ghost var issued: seq<nat>

    ghost function View(): State
      reads this
    {
      State(accounts, tokens, issued)
    }

    constructor (hash: string -> string, accounts: map<UserId, Account>)
      ensures this.hash == hash && View() == State(accounts, map[], [])
    {
      this.hash := hash;
      this.accounts := accounts;
      tokens := map[];
      issued := [];
    }

    /** Sign-in with the right password: with two-factor enabled it yields a temporary
        token, `token` being the new one, and never a session; otherwise a session.
        `stored` and `issues` are whether Redis and the token issuer do their part. */
    method LoginUser(user: UserId, now: nat, token: TokenId, stored: bool, issues: bool)
      returns (requires2FA: bool, out: Outcome)
      requires token == |issued|
      modifies this
      ensures View() == Step(old(View()), hash, Login(user, now, stored)).0
      ensures requires2FA <==> user in accounts && accounts[user].enabled && stored
      ensures requires2FA ==> token in tokens && tokens[token] == Token(user, now + TOKEN_LIFE)
      ensures !requires2FA ==> tokens == old(tokens)
      ensures out == SignedIn(user) <==> user in accounts && !accounts[user].enabled && issues
      ensures out.SignedIn? ==> out == SignedIn(user)
    {
      out := NotSignedIn;
      if user !in accounts { return false, NotSignedIn; }
      if accounts[user].enabled {
        if !stored { return false, NotSignedIn; }
        tokens := tokens[token := Token(user, now + TOKEN_LIFE)];
        issued := issued + [now];
        return true, NotSignedIn;
      }
      requires2FA := false;
      if issues { out := SignedIn(user); }
    }

    /** Enable2FA, once the submitted code was found right. */
    method Enable2FA(user: UserId, codes: seq<string>)
      modifies this
      ensures View() == Step(old(View()), hash, Enable(user, codes)).0
    {
      var hashed := HashRecoveryCodes(hash, codes);
      if user in accounts {
        accounts := accounts[user := Account(true, hashed)];
      }
    }

    method RegenerateRecoveryCodes(user: UserId, codes: seq<string>)
      modifies this
      ensures View() == Step(old(View()), hash, Regenerate(user, codes)).0
    {
      var hashed := HashRecoveryCodes(hash, codes);
      if user in accounts {
        accounts := accounts[user := accounts[user].(codes := hashed)];
      }
    }

    method Disable2FA(user: UserId)
      modifies this
      ensures View() == Step(old(View()), hash, Disable(user)).0
    {
      if user in accounts {
        accounts := accounts[user := Account(false, [])];
      }
    }

    method Verify2FA(token: TokenId, attempt: Attempt, now: nat, deleted: bool, issues: bool) returns (out: Outcome)
      modifies this
      ensures (View(), out) == Step(old(View()), hash, Verify(token, attempt, now, deleted, issues))
    {
      if token !in tokens || now >= tokens[token].expires { return NotSignedIn; }
      var userID := tokens[token].user;
      if userID !in accounts { return NotSignedIn; }
      var recoveryCodes := accounts[userID].codes;

      var verified := false;
      match attempt {
        case Checked(valid) =>
          verified := valid;
        case Recovery(code, saved) =>
          var idx := VerifyRecoveryCode(hash, code, recoveryCodes);
          if idx >= 0 {
            verified := true;
            FirstIndex(recoveryCodes, hash(code), idx);
            var newCodes := recoveryCodes[..idx] + recoveryCodes[idx + 1..];
            if !saved { return NotSignedIn; }
            accounts := accounts[userID := accounts[userID].(codes := newCodes)];
          }
      }
      if !verified { return NotSignedIn; }

      if deleted { tokens := tokens - {token}; }
      out := if issues then SignedIn(userID) else NotSignedIn;
    }
  }

  lemma FirstIndex(codes: seq<string>, h: string, i: nat)
    requires i < |codes| && codes[i] == h && h !in codes[..i]
    ensures IndexOf(codes, h) == i
  {
    var j := IndexOf(codes, h);
    assert forall k | 0 <= k < i :: codes[..i][k] != h;
    assert forall k | 0 <= k < j :: codes[..j][k] != h;
  }

  // ----- What one event does, from the stored columns alone -----

  /** The attempt is right for a user: the checked code is, or the recovery code's hash is
      among the user's and the row without it could be saved. */
  predicate Right(s: State, hash: string -> string, attempt: Attempt, user: UserId) {
    match attempt
    case Checked(valid) => valid
    case Recovery(code, saved) => saved && user in s.accounts && hash(code) in s.accounts[user].codes
  }

  /** The token is stored for the user, has not expired, and the user has an account. */
  predicate Holds(s: State, token: TokenId, user: UserId, now: nat) {
    token in s.tokens && s.tokens[token].user == user && now < s.tokens[token].expires && user in s.accounts
  }

  /** Verification signs a user in if and only if the token is the user's and live, the
      attempt is right and the session could be issued. */
  lemma VerifySignsIn(s: State, hash: string -> string, token: TokenId, attempt: Attempt, now: nat, deleted: bool,
                      issues: bool, user: UserId)
    ensures Step(s, hash, Verify(token, attempt, now, deleted, issues)).1 == SignedIn(user)
       <==> (Holds(s, token, user, now) && Right(s, hash, attempt, user) && issues)
  {
  }

  /** One account changes, and only by losing the code: its first occurrence. */
  ghost predicate LosesCode(before: map<UserId, Account>, after: map<UserId, Account>, user: UserId, h: string) {
    && user in before && user in after
    && after == before[user := after[user]]
    && after[user].enabled == before[user].enabled
    && exists i | 0 <= i < |before[user].codes| ::
         && before[user].codes[i] == h && h !in before[user].codes[..i]
         && after[user].codes == before[user].codes[..i] + before[user].codes[i + 1..]
  }

  /** What else it changes: a recovery code that was right is used up, whether or not the
      session could be issued; the token goes when the attempt was right and Redis deletes
      it; anything else leaves accounts and tokens as they were. */
  lemma VerifyChanges(s: State, hash: string -> string, token: TokenId, attempt: Attempt, now: nat, deleted: bool,
                      issues: bool)
    ensures var after := Step(s, hash, Verify(token, attempt, now, deleted, issues)).0;
            var user := if token in s.tokens then s.tokens[token].user else 0;
            var right := Holds(s, token, user, now) && Right(s, hash, attempt, user);
            && after.issued == s.issued
            && (forall t :: t in after.tokens <==> t in s.tokens && !(right && deleted && t == token))
            && (forall t | t in after.tokens :: after.tokens[t] == s.tokens[t])
            && (right && attempt.Recovery? ==> LosesCode(s.accounts, after.accounts, user, hash(attempt.code)))
            && (!(right && attempt.Recovery?) ==> after.accounts == s.accounts)
  {
    var user := if token in s.tokens then s.tokens[token].user else 0;
    if Holds(s, token, user, now) && Right(s, hash, attempt, user) && attempt.Recovery? {
      var codes := s.accounts[user].codes;
      var i := IndexOf(codes, hash(attempt.code));
      assert codes[i] == hash(attempt.code) && hash(attempt.code) !in codes[..i];
    }
  }

  /** A password sign-in changes no account, and stores a token for the user exactly if
      two-factor is enabled and Redis answers. */
  lemma LoginIssues(s: State, hash: string -> string, user: UserId, now: nat, stored: bool)
    ensures var (after, out) := Step(s, hash, Login(user, now, stored));
            var issues := user in s.accounts && s.accounts[user].enabled && stored;
            && out == NotSignedIn && after.accounts == s.accounts
            && after.issued == (if issues then s.issued + [now] else s.issued)
            && after.tokens == (if issues then s.tokens[|s.issued| := Token(user, now + 300)] else s.tokens)
  {
  }

  /** Enabling and regenerating store the hashes of the codes in their order, disabling
      drops them; enabling sets the flag, disabling clears it, regenerating keeps it.  No
      other account changes, and a user without a row is not given one. */
  lemma AccountsAfter(s: State, hash: string -> string, user: UserId, codes: seq<string>)
    ensures var enabled := Step(s, hash, Enable(user, codes)).0;
            var renewed := Step(s, hash, Regenerate(user, codes)).0;
            var disabled := Step(s, hash, Disable(user)).0;
            && enabled.tokens == renewed.tokens == disabled.tokens == s.tokens
            && enabled.issued == renewed.issued == disabled.issued == s.issued
            && enabled.accounts.Keys == renewed.accounts.Keys == disabled.accounts.Keys == s.accounts.Keys
            && (forall u | u in s.accounts && u != user ::
                  enabled.accounts[u] == renewed.accounts[u] == disabled.accounts[u] == s.accounts[u])
            && (user in s.accounts ==>
                  && enabled.accounts[user].enabled && !disabled.accounts[user].enabled
                  && renewed.accounts[user].enabled == s.accounts[user].enabled
                  && disabled.accounts[user].codes == []
                  && enabled.accounts[user].codes == renewed.accounts[user].codes
                  && |enabled.accounts[user].codes| == |codes|
                  && forall i | 0 <= i < |codes| :: enabled.accounts[user].codes[i] == hash(codes[i]))
  {
    hide HashAll;
    HashedEach(hash, codes);
  }

  lemma HashedEach(hash: string -> string, codes: seq<string>)
    ensures |HashAll(hash, codes)| == |codes|
    ensures forall i | 0 <= i < |codes| :: HashAll(hash, codes)[i] == hash(codes[i])
  {
  }

  // ----- Whole runs -----

  function Run(s: State, hash: string -> string, events: seq<Event>): (r: (State, seq<Outcome>))
    ensures |r.1| == |events|
    decreases events
  {
    if events == [] then (s, [])
    else
      var (s1, o) := Step(s, hash, events[0]);
      var (s2, out) := Run(s1, hash, events[1..]);
      (s2, [o] + out)
  }

  /** Hashes of the recovery codes of one user that a run uses up, in order. */
  function Used(s: State, hash: string -> string, events: seq<Event>, user: UserId): seq<string>
    decreases events
  {
    if events == [] then []
    else
      var e := events[0];
      (if Consumes(s, hash, e) && s.tokens[e.token].user == user then [hash(e.attempt.code)] else [])
      + Used(Step(s, hash, e).0, hash, events[1..], user)
  }

  /** Recovery sign-ins of one user in a run, by the hash of the code presented. */
  function RecoverySignIns(s: State, hash: string -> string, events: seq<Event>, user: UserId): seq<string>
    decreases events
  {
    if events == [] then []
    else
      var e := events[0];
      var (s1, o) := Step(s, hash, e);
      (if e.Verify? && e.attempt.Recovery? && o == SignedIn(user) then [hash(e.attempt.code)] else [])
      + RecoverySignIns(s1, hash, events[1..], user)
  }

  /** No event of the run gives the user new codes. */
  predicate SameCodes(events: seq<Event>, user: UserId) {
    forall e | e in events :: !(e.Enable? && e.user == user) && !(e.Regenerate? && e.user == user)
  }

  function Codes(s: State, user: UserId): seq<string> {
    if user in s.accounts then s.accounts[user].codes else []
  }

  lemma WithoutOne(codes: seq<string>, h: string)
    requires h in codes
    ensures multiset(Without(codes, h)) + multiset{h} == multiset(codes)
  {
    var i := IndexOf(codes, h);
    assert codes == codes[..i] + [h] + codes[i + 1..];
  }

  lemma StepConserves(s: State, hash: string -> string, e: Event, user: UserId)
    requires SameCodes([e], user)
    ensures var used := if Consumes(s, hash, e) && s.tokens[e.token].user == user
                        then multiset{hash(e.attempt.code)} else multiset{};
            var after := Codes(Step(s, hash, e).0, user);
            && multiset(after) + used <= multiset(Codes(s, user))
            && (e != Disable(user) ==> multiset(after) + used == multiset(Codes(s, user)))
  {
    assert e in [e];
    if e.Verify? { VerifyConserves(s, hash, e, user); }
  }

  lemma VerifyConserves(s: State, hash: string -> string, e: Event, user: UserId)
    requires e.Verify?
    ensures var used := if Consumes(s, hash, e) && s.tokens[e.token].user == user
                        then multiset{hash(e.attempt.code)} else multiset{};
            multiset(Codes(Step(s, hash, e).0, user)) + used == multiset(Codes(s, user))
  {
    if Consumes(s, hash, e) {
      var owner := s.tokens[e.token].user;
      WithoutOne(s.accounts[owner].codes, hash(e.attempt.code));
      assert Step(s, hash, e).0.accounts
          == s.accounts[owner := s.accounts[owner].(codes := Without(s.accounts[owner].codes, hash(e.attempt.code)))];
    } else {
      assert Step(s, hash, e).0.accounts == s.accounts;
    }
  }

  /** Codes are conserved: until new ones are generated, what a user still has and
      what was used up make up exactly what there was.  Disabling only loses some. */
  lemma {:induction false} CodesConserved(s: State, hash: string -> string, events: seq<Event>, user: UserId)
    requires SameCodes(events, user)
    ensures var left := Codes(Run(s, hash, events).0, user);
            var used := multiset(Used(s, hash, events, user));
            && multiset(left) + used <= multiset(Codes(s, user))
            && (Disable(user) !in events ==> multiset(left) + used == multiset(Codes(s, user)))
    decreases events
  {
    if events != [] {
      var e := events[0];
      assert SameCodes([e], user);
      StepConserves(s, hash, e, user);
      CodesConserved(Step(s, hash, e).0, hash, events[1..], user);
    }
  }

  /** Every recovery sign-in used a code up. */
  lemma {:induction false} SignInsUseCodes(s: State, hash: string -> string, events: seq<Event>, user: UserId)
    ensures multiset(RecoverySignIns(s, hash, events, user)) <= multiset(Used(s, hash, events, user))
    decreases events
  {
    if events != [] {
      var e := events[0];
      if e.Verify? && e.attempt.Recovery? && Step(s, hash, e).1.SignedIn? {
        SignInConsumes(s, hash, e);
      }
      SignInsUseCodes(Step(s, hash, events[0]).0, hash, events[1..], user);
    }
  }

  lemma SignInConsumes(s: State, hash: string -> string, e: Event)
    requires e.Verify? && e.attempt.Recovery? && Step(s, hash, e).1.SignedIn?
    ensures Consumes(s, hash, e) && Step(s, hash, e).1 == SignedIn(s.tokens[e.token].user)
  {
  }

  lemma SmallerHasFewer(a: multiset<string>, b: multiset<string>)
    requires a <= b
    ensures |a| <= |b|
  {
    assert b == a + (b - a);
  }

  /** After Enable or Regenerate has given a user new codes (NewCodes is what both do),
      and until the next time: each hash signs in at most as often as it was issued, and
      all recovery sign-ins together at most as often as there were codes, which is ten. */
  lemma RecoverySignInsBounded(s: State, hash: string -> string, enabled: bool, codes: seq<string>, events: seq<Event>,
                               user: UserId, code: string)
    requires user in s.accounts && |codes| == RECOVERY_CODES && SameCodes(events, user)
    ensures var issued := NewCodes(s, user, enabled, HashAll(hash, codes));
            var signIns := RecoverySignIns(issued, hash, events, user);
            && multiset(signIns)[hash(code)] <= multiset(HashAll(hash, codes))[hash(code)]
            && |signIns| <= RECOVERY_CODES
  {
    BoundedFrom(NewCodes(s, user, enabled, HashAll(hash, codes)), hash, events, user, HashAll(hash, codes));
  }

  lemma BoundedFrom(s: State, hash: string -> string, events: seq<Event>, user: UserId, issued: seq<string>)
    requires SameCodes(events, user) && Codes(s, user) == issued
    ensures var signIns := RecoverySignIns(s, hash, events, user);
            multiset(signIns) <= multiset(issued) && |signIns| <= |issued|
  {
    var signIns := RecoverySignIns(s, hash, events, user);
    CodesConserved(s, hash, events, user);
    SignInsUseCodes(s, hash, events, user);
    SmallerHasFewer(multiset(signIns), multiset(issued));
  }

  // ----- Temporary tokens -----

  /** Every stored token was issued, with five minutes to live. */
  ghost predicate TokensIssued(s: State) {
    forall t | t in s.tokens :: t < |s.issued| && s.tokens[t].expires == s.issued[t] + TOKEN_LIFE
  }

  /** Sign-ins a run makes with one token. */
  function SignIns(events: seq<Event>, out: seq<Outcome>, token: TokenId): nat
    requires |events| == |out|
  {
    if events == [] then 0
    else (if events[0].Verify? && events[0].token == token && out[0].SignedIn? then 1 else 0)
         + SignIns(events[1..], out[1..], token)
  }

  /** The token was used and Redis failed to delete it. */
  predicate LosesDelete(s: State, hash: string -> string, e: Event, token: TokenId) {
    Verified(s, hash, e) && e.token == token && !e.deleted
  }

  /** Times that happened in a run. */
  function LostDeletes(s: State, hash: string -> string, events: seq<Event>, token: TokenId): nat
    decreases events
  {
    if events == [] then 0
    else (if LosesDelete(s, hash, events[0], token) then 1 else 0)
         + LostDeletes(Step(s, hash, events[0]).0, hash, events[1..], token)
  }

  /** The token may still be used, or has not been issued yet. */
  predicate Usable(s: State, token: TokenId) { token in s.tokens || token >= |s.issued| }

  lemma TokenStep(s: State, hash: string -> string, e: Event, token: TokenId)
    requires TokensIssued(s)
    ensures TokensIssued(Step(s, hash, e).0)
    ensures Usable(Step(s, hash, e).0, token) ==> Usable(s, token)
    ensures e.Verify? && e.token == token && Step(s, hash, e).1.SignedIn? ==>
              Usable(s, token) && (!LosesDelete(s, hash, e, token) ==> !Usable(Step(s, hash, e).0, token))
  {
  }

  lemma {:induction false} TokenUses(s: State, hash: string -> string, events: seq<Event>, token: TokenId)
    requires TokensIssued(s)
    ensures SignIns(events, Run(s, hash, events).1, token)
         <= LostDeletes(s, hash, events, token) + if Usable(s, token) then 1 else 0
    decreases events
  {
    if events != [] {
      var s1 := Step(s, hash, events[0]).0;
      TokenStep(s, hash, events[0], token);
      TokenUses(s1, hash, events[1..], token);
      assert Run(s, hash, events).1[1..] == Run(s1, hash, events[1..]).1;
    }
  }

  /** A sign-in happens only while its token lives, and leaves everything issued in order. */
  lemma SignInInTime(s: State, hash: string -> string, e: Event)
    requires TokensIssued(s)
    ensures TokensIssued(Step(s, hash, e).0)
    ensures Step(s, hash, e).0.issued == s.issued
            || (e.Login? && Step(s, hash, e).0.issued == s.issued + [e.now])
    ensures Step(s, hash, e).1.SignedIn? ==>
              e.Verify? && e.token < |s.issued| && e.now < s.issued[e.token] + TOKEN_LIFE
  {
  }

  /** From any initial state, a token signs in at most once, except that each delete
      that was tried and failed may allow one more; and never once its five minutes are
      over. */
  lemma {:induction false} TokenTheorem(s: State, hash: string -> string, events: seq<Event>, token: TokenId)
    requires s.tokens == map[] && s.issued == []
    ensures var (end, out) := Run(s, hash, events);
            && SignIns(events, out, token) <= 1 + LostDeletes(s, hash, events, token)
            && (forall i | 0 <= i < |events| && out[i].SignedIn? :: InTime(events[i], end.issued))
  {
    TokenUses(s, hash, events, token);
    AllInTime(s, hash, events);
  }

  predicate InTime(e: Event, issued: seq<nat>) {
    e.Verify? && e.token < |issued| && e.now < issued[e.token] + TOKEN_LIFE
  }

  lemma {:induction false} AllInTime(s: State, hash: string -> string, events: seq<Event>)
    requires TokensIssued(s)
    ensures var (end, out) := Run(s, hash, events);
            && s.issued <= end.issued
            && (forall i | 0 <= i < |events| && out[i].SignedIn? :: InTime(events[i], end.issued))
    decreases events
  {
    if events != [] {
      var s1 := Step(s, hash, events[0]).0;
      SignInInTime(s, hash, events[0]);
      AllInTime(s1, hash, events[1..]);
      var (end, out) := Run(s, hash, events);
      forall i | 0 <= i < |events| && out[i].SignedIn? ensures InTime(events[i], end.issued) {
        if i > 0 {
          assert out[i] == Run(s1, hash, events[1..]).1[i - 1] && events[i] == events[1..][i - 1];
        }
      }
    }
  }

  /** The token is used n times, and each time but the last the delete is lost. */
  function Uses(token: TokenId, n: nat): seq<Event> {
    if n == 0 then [] else [Verify(token, Checked(true), 1, n == 1, true)] + Uses(token, n - 1)
  }

  lemma {:induction false} UsesSignIn(s: State, hash: string -> string, user: UserId, token: TokenId, n: nat)
    requires n > 0 && user in s.accounts && token in s.tokens && s.tokens[token] == Token(user, TOKEN_LIFE)
    ensures SignIns(Uses(token, n), Run(s, hash, Uses(token, n)).1, token) == n
    ensures LostDeletes(s, hash, Uses(token, n), token) == n - 1
    decreases n
  {
    var events := Uses(token, n);
    var e := events[0];
    var (s1, out) := Step(s, hash, e);
    assert events[1..] == Uses(token, n - 1);
    assert Run(s, hash, events).1 == [out] + Run(s1, hash, events[1..]).1;
    assert Run(s, hash, events).1[1..] == Run(s1, hash, events[1..]).1;
    assert out == SignedIn(user);
    if n == 1 {
      assert Run(s1, hash, []).1 == [];
    } else {
      assert s1 == s;
      UsesSignIn(s, hash, user, token, n - 1);
    }
  }

  /** A user signs in with the password and then uses the token n + 1 times. */
  function Replay(n: nat): seq<Event> { [Login(7, 0, true)] + Uses(0, n + 1) }

  function OneUser(): State { State(map[7 := Account(true, [])], map[], []) }

  lemma ReplaySignsIn(hash: string -> string, n: nat)
    ensures SignIns(Replay(n), Run(OneUser(), hash, Replay(n)).1, 0) == n + 1
    ensures LostDeletes(OneUser(), hash, Replay(n), 0) == n
  {
    var s1 := Step(OneUser(), hash, Login(7, 0, true)).0;
    UsesSignIn(s1, hash, 7, 0, n + 1);
    assert Replay(n)[0] == Login(7, 0, true);
    assert Replay(n)[1..] == Uses(0, n + 1);
    assert Run(OneUser(), hash, Replay(n)).1[1..] == Run(s1, hash, Uses(0, n + 1)).1;
  }

  /** In every run in which at most n deletes of a token are lost, it signs in at most m times. */
  ghost predicate SignInsWithin(hash: string -> string, n: nat, m: nat) {
    forall s: State, events: seq<Event>, token: TokenId |
      s.tokens == map[] && s.issued == [] && LostDeletes(s, hash, events, token) <= n ::
      SignIns(events, Run(s, hash, events).1, token) <= m
  }

  /** The bound is exact for every number of lost deletes; a token that signs in at most
      once is one none of whose deletes may be lost. */
  lemma SignInsExactly(hash: string -> string, n: nat, m: nat)
    ensures SignInsWithin(hash, n, m) <==> m >= n + 1
  {
    if m >= n + 1 {
      forall s: State, events: seq<Event>, token: TokenId |
        s.tokens == map[] && s.issued == [] && LostDeletes(s, hash, events, token) <= n
        ensures SignIns(events, Run(s, hash, events).1, token) <= m
      {
        TokenTheorem(s, hash, events, token);
      }
    } else {
      ReplaySignsIn(hash, n);
      assert OneUser().tokens == map[] && OneUser().issued == [];
    }
  }
  // ----- Both factors -----

  /** A password sign-in of the user, less than five minutes before. */
  predicate PasswordGiven(e: Event, user: UserId, now: nat) {
    e.Login? && e.stored && e.user == user && now < e.now + 300
  }

  /** Every stored token comes from a password sign-in among the events before. */
  ghost predicate TokensFrom(s: State, past: seq<Event>) {
    forall t | t in s.tokens :: exists i | 0 <= i < |past| :: GivesToken(past[i], s.tokens[t])
  }

  predicate GivesToken(e: Event, token: Token) {
    e.Login? && e.stored && token == Token(e.user, e.now + TOKEN_LIFE)
  }

  lemma TokensFromStep(s: State, hash: string -> string, past: seq<Event>, e: Event)
    requires TokensFrom(s, past)
    ensures TokensFrom(Step(s, hash, e).0, past + [e])
  {
    var after := Step(s, hash, e).0;
    forall t | t in after.tokens
      ensures exists i | 0 <= i < |past + [e]| :: GivesToken((past + [e])[i], after.tokens[t])
    {
      if t in s.tokens && after.tokens[t] == s.tokens[t] {
        var i :| 0 <= i < |past| && GivesToken(past[i], s.tokens[t]);
        assert (past + [e])[i] == past[i];
      } else {
        assert (past + [e])[|past|] == e;
      }
    }
  }

  /** Nobody is signed in by verification alone: in every run, each such sign-in follows a
      password sign-in of that very user, less than five minutes old by the clock of the
      attempt, and presents a right code. */
  lemma {:induction false} NeedsBothFactors(s: State, hash: string -> string, past: seq<Event>, events: seq<Event>,
                                            k: nat)
    requires TokensFrom(s, past) && k < |events| && Run(s, hash, events).1[k].SignedIn?
    ensures var user := Run(s, hash, events).1[k].user;
            var e := events[k];
            && e.Verify? && Right(Run(s, hash, events[..k]).0, hash, e.attempt, user)
            && exists i | 0 <= i < |past| + k :: PasswordGiven((past + events)[i], user, e.now)
    decreases events
  {
    hide Step, TokensFrom;
    var s1 := Step(s, hash, events[0]).0;
    if k == 0 {
      assert events[..0] == [];
      FirstNeedsBoth(s, hash, past, events[0]);
      var i :| 0 <= i < |past| && PasswordGiven(past[i], Step(s, hash, events[0]).1.user, events[0].now);
      assert (past + events)[i] == past[i];
    } else {
      TokensFromStep(s, hash, past, events[0]);
      NeedsBothFactors(s1, hash, past + [events[0]], events[1..], k - 1);
      assert past + [events[0]] + events[1..] == past + events;
      assert events[..k][1..] == events[1..][..k - 1];
    }
  }

  lemma FirstNeedsBoth(s: State, hash: string -> string, past: seq<Event>, e: Event)
    requires TokensFrom(s, past) && Step(s, hash, e).1.SignedIn?
    ensures e.Verify? && Right(s, hash, e.attempt, Step(s, hash, e).1.user)
    ensures exists i | 0 <= i < |past| :: PasswordGiven(past[i], Step(s, hash, e).1.user, e.now)
  {
    var user := Step(s, hash, e).1.user;
    VerifySignsIn(s, hash, e.token, e.attempt, e.now, e.deleted, e.issues, user);
    var i :| 0 <= i < |past| && GivesToken(past[i], s.tokens[e.token]);
    assert PasswordGiven(past[i], user, e.now);
  }
}
