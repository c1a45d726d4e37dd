/** Single-use invitations to the admin console (internal/admin/enroll.go and
    login.go): the right to enrol one phone, passed from hand to hand. */
module Enrollment {
  import opened Common

  type Token = string

  datatype Purpose = Register | Login

  datatype Invite = Invite(used: bool, expiresAt: int)

  datatype Ceremony = Ceremony(purpose: Purpose, invite: Token, expiresAt: int)

  /** The tables, and the requests under way: a begin that has claimed its invitation
      and a finish that has taken its challenge. `issued` is every token ever made;
      tokens are random and never made twice. */
  datatype Auth = Auth(
    invites: map<Token, Invite>,
    ceremonies: map<string, Ceremony>,
    passkeys: map<string, Token>,
    begins: map<int, Token>,
    finishes: map<int, Token>,
    issued: set<Token>,
    now: int)

  const ENROLLMENT_LIFETIME := 15 * 60
  const CEREMONY_LIFETIME := 5 * 60

  // ---------------------------------------------------------------- statements

  predicate Claimable(a: Auth, token: Token) {
    token in a.invites && !a.invites[token].used && a.invites[token].expiresAt > a.now
  }

  function SetUsed(a: Auth, token: Token, used: bool): Auth {
    if token !in a.invites then a else a.(invites := a.invites[token := a.invites[token].(used := used)])
  }

  function SweepExpired(a: Auth): Auth {
    a.(ceremonies := map id | id in a.ceremonies && a.ceremonies[id].expiresAt >= a.now :: a.ceremonies[id],
       invites := map t | t in a.invites && (a.invites[t].expiresAt >= a.now || a.invites[t].used) :: a.invites[t])
  }

  // ---------------------------------------------------------------- steps

  datatype Step =
    | CreateInvite(token: Token)
    | BeginClaims(request: int, token: Token)
    | BeginStores(request: int, id: string)
    | BeginFails(request: int)
    | StoreLogin(id: string)
    | FinishTakes(request: int, id: string, purpose: Purpose)
    | FinishRejected(request: int)
    | FinishCommits(request: int, credential: string)
    | RequestDies(request: int)
    | SweepAuth
    | Wait(seconds: nat)

  function Advance(a: Auth, s: Step): Auth {
    match s
    case CreateInvite(token) =>
      if token in a.issued then a
      else a.(invites := a.invites[token := Invite(false, a.now + ENROLLMENT_LIFETIME)], issued := a.issued + {token})
    case BeginClaims(r, token) =>
      if r in a.begins || !Claimable(a, token) then a
      else SetUsed(a, token, true).(begins := a.begins[r := token])
    case BeginStores(r, id) =>
      // an id that is taken fails the insert, and the begin with it
      if r !in a.begins || id in a.ceremonies then a
      else
        a.(ceremonies := a.ceremonies[id := Ceremony(Register, a.begins[r], a.now + CEREMONY_LIFETIME)],
          begins := a.begins - {r})
    case BeginFails(r) =>
      if r !in a.begins then a else SetUsed(a, a.begins[r], false).(begins := a.begins - {r})
    case StoreLogin(id) =>
      if id in a.ceremonies then a
      else a.(ceremonies := a.ceremonies[id := Ceremony(Login, "", a.now + CEREMONY_LIFETIME)])
    case FinishTakes(r, id, purpose) =>
      if r in a.finishes || id !in a.ceremonies || a.ceremonies[id].expiresAt <= a.now then a
      else
        var c, taken := a.ceremonies[id], a.(ceremonies := a.ceremonies - {id});
        if c.purpose == purpose == Register && c.invite in a.invites then taken.(finishes := a.finishes[r := c.invite])
        else taken
    case FinishRejected(r) =>
      if r !in a.finishes then a else SetUsed(a, a.finishes[r], false).(finishes := a.finishes - {r})
    case FinishCommits(r, credential) =>
      // a credential already on file fails the insert and rolls the whole of it back
      if r !in a.finishes then a
      else a.(passkeys := if credential in a.passkeys then a.passkeys else a.passkeys[credential := a.finishes[r]],
              finishes := a.finishes - {r})
    case RequestDies(r) => a.(begins := a.begins - {r}, finishes := a.finishes - {r})
    case SweepAuth => SweepExpired(a)
    case Wait(seconds) => a.(now := a.now + seconds)
  }

  function Run(a: Auth, steps: seq<Step>): Auth {
    if |steps| == 0 then a else Advance(Run(a, steps[..|steps| - 1]), steps[|steps| - 1])
  }

  function Nobody(now: int): Auth {
    Auth(map[], map[], map[], map[], map[], {}, now)
  }

  // ---------------------------------------------------------------- who holds the right

  datatype Holder =
    | OpenInvite
    | BeginUnderWay(request: int)
    | Challenge(id: string)
    | FinishUnderWay(request: int)
    | Passkey(credential: string)

  /** This is where the right to enrol on this invitation is, or where it went. */
  predicate Has(a: Auth, token: Token, h: Holder) {
    match h
    case OpenInvite => token in a.invites && !a.invites[token].used
    case BeginUnderWay(r) => r in a.begins && a.begins[r] == token
    case Challenge(id) => id in a.ceremonies && a.ceremonies[id].purpose == Register && a.ceremonies[id].invite == token
    case FinishUnderWay(r) => r in a.finishes && a.finishes[r] == token
    case Passkey(c) => c in a.passkeys && a.passkeys[c] == token
  }

  /** One holder at most, and only invitations that were issued have any. */
  ghost predicate OneHolder(a: Auth, token: Token) {
    && (forall g, h :: Has(a, token, g) && Has(a, token, h) ==> g == h)
    && (token !in a.issued ==> token !in a.invites && forall h :: !Has(a, token, h))
  }

  ghost predicate Inv(a: Auth) {
    forall token :: OneHolder(a, token)
  }

  /** The right only ever moves: a holder after the step was the holder before, or got
      it from the one who was and is not any more. */
  ghost predicate Passed(a: Auth, a': Auth, token: Token, from: Holder, to: Holder) {
    && Has(a, token, from) && !Has(a', token, from)
    && forall h :: Has(a', token, h) ==> h == to || Has(a, token, h)
  }

  ghost predicate Kept(a: Auth, a': Auth, token: Token) {
    && a'.issued == a.issued
    && (token !in a.invites ==> token !in a'.invites)
    && forall h :: Has(a', token, h) ==> Has(a, token, h)
  }

  lemma {:induction false} KeptStaysOne(a: Auth, a': Auth, token: Token)
    requires OneHolder(a, token) && Kept(a, a', token)
    ensures OneHolder(a', token)
  {
    if token !in a'.issued {
      forall h ensures !Has(a', token, h) {
        assert !Has(a, token, h);
      }
    }
  }

  lemma {:induction false} PassedStaysOne(a: Auth, a': Auth, token: Token, from: Holder, to: Holder)
    requires OneHolder(a, token) && Passed(a, a', token, from, to) && a'.issued == a.issued
    ensures OneHolder(a', token)
  {
    assert token in a.issued;
    forall g, h | Has(a', token, g) && Has(a', token, h) ensures g == h {
      assert g == to || (Has(a, token, g) && g == from);
      assert h == to || (Has(a, token, h) && h == from);
    }
  }

  /** Which way a step moves the right on one invitation. */
  function Moves(a: Auth, s: Step, token: Token): Option<(Holder, Holder)> {
    match s
    case BeginClaims(r, t) =>
      if r !in a.begins && t == token && Claimable(a, t) then Some((OpenInvite, BeginUnderWay(r))) else None
    case BeginStores(r, id) =>
      if r in a.begins && a.begins[r] == token && id !in a.ceremonies then Some((BeginUnderWay(r), Challenge(id)))
      else None
    case BeginFails(r) => if r in a.begins && a.begins[r] == token then Some((BeginUnderWay(r), OpenInvite)) else None
    case FinishTakes(r, id, purpose) =>
      if r !in a.finishes && id in a.ceremonies && a.ceremonies[id].expiresAt > a.now
        && a.ceremonies[id].purpose == Register && a.ceremonies[id].invite == token
      then Some((Challenge(id), FinishUnderWay(r))) else None
    case FinishRejected(r) =>
      if r in a.finishes && a.finishes[r] == token then Some((FinishUnderWay(r), OpenInvite)) else None
    case FinishCommits(r, c) =>
      if r in a.finishes && a.finishes[r] == token then Some((FinishUnderWay(r), Passkey(c))) else None
    case _ => None
  }

  lemma {:induction false} StepPasses(a: Auth, s: Step, token: Token)
    requires Moves(a, s, token).Some?
    ensures Passed(a, Advance(a, s), token, Moves(a, s, token).value.0, Moves(a, s, token).value.1)
    ensures Advance(a, s).issued == a.issued
  {
  }

  lemma {:induction false} StepKeeps(a: Auth, s: Step, token: Token)
    requires !s.CreateInvite? && Moves(a, s, token).None?
    ensures Kept(a, Advance(a, s), token)
  {
    hide Advance, Kept;
    if s.FinishTakes? {
      TakingKeeps(a, s.request, s.id, s.purpose, token);
    } else if s.BeginStores? {
      StoringKeeps(a, s.request, s.id, token);
    } else if s.BeginClaims? || s.BeginFails? {
      BeginStepKeeps(a, s, token);
    } else if s.FinishRejected? || s.FinishCommits? {
      FinishStepKeeps(a, s, token);
    } else {
      QuietStepKeeps(a, s, token);
    }
  }

  lemma {:induction false} BeginStepKeeps(a: Auth, s: Step, token: Token)
    requires s.BeginClaims? || s.BeginFails?
    requires Moves(a, s, token).None?
    ensures Kept(a, Advance(a, s), token)
  {
  }

  lemma {:induction false} FinishStepKeeps(a: Auth, s: Step, token: Token)
    requires s.FinishRejected? || s.FinishCommits?
    requires Moves(a, s, token).None?
    ensures Kept(a, Advance(a, s), token)
  {
  }

  lemma {:induction false} QuietStepKeeps(a: Auth, s: Step, token: Token)
    requires s.StoreLogin? || s.RequestDies? || s.SweepAuth? || s.Wait?
    ensures Kept(a, Advance(a, s), token)
  {
  }

  lemma {:induction false} TakingKeeps(a: Auth, r: int, id: string, purpose: Purpose, token: Token)
    requires Moves(a, FinishTakes(r, id, purpose), token).None?
    ensures Kept(a, Advance(a, FinishTakes(r, id, purpose)), token)
  {
  }

  lemma {:induction false} StoringKeeps(a: Auth, r: int, id: string, token: Token)
    requires Moves(a, BeginStores(r, id), token).None?
    ensures Kept(a, Advance(a, BeginStores(r, id)), token)
  {
  }

  lemma {:induction false} EveryStepKeeps(a: Auth, s: Step)
    requires Inv(a)
    ensures Inv(Advance(a, s))
  {
    var a' := Advance(a, s);
    forall token ensures OneHolder(a', token) {
      assert OneHolder(a, token);
      if s.CreateInvite? {
        InviteKeeps(a, s.token, token);
      } else {
        hide Advance, Has, OneHolder;
        match Moves(a, s, token)
        case Some((from, to)) =>
          StepPasses(a, s, token);
          PassedStaysOne(a, a', token, from, to);
        case None =>
          StepKeeps(a, s, token);
          KeptStaysOne(a, a', token);
      }
    }
  }

  lemma {:induction false} InviteKeeps(a: Auth, invited: Token, token: Token)
    requires OneHolder(a, token)
    ensures OneHolder(Advance(a, CreateInvite(invited)), token)
  {
    var a' := Advance(a, CreateInvite(invited));
    forall h | Has(a', token, h)
      ensures Has(a, token, h) || (h == OpenInvite && token == invited && token !in a.issued)
    {
    }
  }

  lemma {:induction false} EveryRun(a: Auth, steps: seq<Step>)
    requires Inv(a)
    ensures Inv(Run(a, steps))
  {
    if |steps| > 0 {
      EveryRun(a, steps[..|steps| - 1]);
      EveryStepKeeps(Run(a, steps[..|steps| - 1]), steps[|steps| - 1]);
      hide Inv, Advance;
    }
  }

  /** An invitation makes at most one passkey. Over every interleaving of begins,
      finishes, failures, releases, crashes, sweeps and expiries, the right to use it
      is in one place at most; two phones never both get in on it. */
  lemma {:induction false} InvitationMakesAtMostOnePasskey(now: int, steps: seq<Step>, token: Token, first: string,
        second: string)
    requires var a := Run(Nobody(now), steps);
      && first in a.passkeys && second in a.passkeys
      && a.passkeys[first] == token && a.passkeys[second] == token
    ensures first == second
    ensures var a := Run(Nobody(now), steps);
      && !Claimable(a, token)
      && (forall r :: r in a.begins ==> a.begins[r] != token)
      && (forall r :: r in a.finishes ==> a.finishes[r] != token)
  {
    var a := Run(Nobody(now), steps);
    EveryRun(Nobody(now), steps);
    assert OneHolder(a, token);
    assert Has(a, token, Passkey(first)) && Has(a, token, Passkey(second));
    assert !Has(a, token, OpenInvite);
    forall r | r in a.begins ensures a.begins[r] != token {
      assert !Has(a, token, BeginUnderWay(r));
    }
    forall r | r in a.finishes ensures a.finishes[r] != token {
      assert !Has(a, token, FinishUnderWay(r));
    }
  }

  /** A ceremony that failed is not an invitation burned: once the request that held
      it gives it back, it can be claimed again exactly as long as it has not expired. */
  lemma {:induction false} FailureHandsTheInvitationBack(a: Auth, s: Step, r: int, token: Token)
    requires Inv(a)
    requires (s == BeginFails(r) && r in a.begins && a.begins[r] == token)
          || (s == FinishRejected(r) && r in a.finishes && a.finishes[r] == token)
    ensures Claimable(Advance(a, s), token) <==> token in a.invites && a.invites[token].expiresAt > a.now
  {
  }

  // ---------------------------------------------------------------- in time

  /** A request gets the invitation exactly while it is unused and not yet expired, and
      then it is used; otherwise nothing happens. */
  lemma {:induction false} ClaimedExactlyWhileOpen(a: Auth, r: int, token: Token)
    requires r !in a.begins
    ensures var a' := Advance(a, BeginClaims(r, token));
      var open := token in a.invites && !a.invites[token].used && a.now < a.invites[token].expiresAt;
      && a' == (if open then a.(begins := a.begins[r := token], invites := a.invites[token := Invite(true,
                 a.invites[token].expiresAt)]) else a)
      && (r in a'.begins <==> open)
  {
  }

  /** A challenge is taken once, by whoever presents it before it expires, and only a
      challenge to register, on an invitation that is still there, gets any further. */
  lemma {:induction false} ChallengeIsTakenOnce(a: Auth, r: int, id: string, purpose: Purpose)
    requires r !in a.finishes
    ensures var a' := Advance(a, FinishTakes(r, id, purpose));
      var taken := id in a.ceremonies && a.now < a.ceremonies[id].expiresAt;
      var enrols := taken && purpose == Register
        && a.ceremonies[id].purpose == Register && a.ceremonies[id].invite in a.invites;
      && a'.ceremonies == (if taken then a.ceremonies - {id} else a.ceremonies)
      && a' == a.(ceremonies := a'.ceremonies, finishes := a'.finishes)
      && a'.finishes == (if enrols then a.finishes[r := a.ceremonies[id].invite] else a.finishes)
  {
  }

  /** A passkey that is made stays, and is never made over to another invitation. */
  lemma {:induction false} PasskeysStay(a: Auth, steps: seq<Step>, credential: string)
    requires credential in a.passkeys
    ensures credential in Run(a, steps).passkeys && Run(a, steps).passkeys[credential] == a.passkeys[credential]
  {
    if |steps| > 0 {
      hide Advance;
      PasskeysStay(a, steps[..|steps| - 1], credential);
      StepKeepsPasskeys(Run(a, steps[..|steps| - 1]), steps[|steps| - 1], credential);
    }
  }

  lemma {:induction false} StepKeepsPasskeys(a: Auth, s: Step, credential: string)
    requires credential in a.passkeys
    ensures credential in Advance(a, s).passkeys && Advance(a, s).passkeys[credential] == a.passkeys[credential]
  {
  }

  /** What the sweeper drops: challenges whose time is past, and invitations whose time is
      past and that nobody used. */
  lemma {:induction false} SweepDropsOnlyTheExpired(a: Auth, id: string, token: Token)
    ensures var a' := Advance(a, SweepAuth);
      && (id in a'.ceremonies <==> id in a.ceremonies && a.now <= a.ceremonies[id].expiresAt)
      && (id in a'.ceremonies ==> a'.ceremonies[id] == a.ceremonies[id])
      && (token in a'.invites <==> token in a.invites && (a.invites[token].used || a.now <= a.invites[token].expiresAt))
      && (token in a'.invites ==> a'.invites[token] == a.invites[token])
      && a' == a.(ceremonies := a'.ceremonies, invites := a'.invites)
  {
  }

  ghost predicate ExpiresAt(a: Auth, token: Token, expiry: int) {
    token in a.issued && (token in a.invites ==> a.invites[token].expiresAt == expiry)
  }

  lemma {:induction false} ExpiryStepsAside(a: Auth, s: Step, token: Token, expiry: int)
    requires ExpiresAt(a, token, expiry)
    ensures ExpiresAt(Advance(a, s), token, expiry)
  {
  }

  lemma {:induction false} ExpiryNeverMoves(a: Auth, steps: seq<Step>, token: Token, expiry: int)
    requires ExpiresAt(a, token, expiry)
    ensures ExpiresAt(Run(a, steps), token, expiry)
  {
    if |steps| > 0 {
      hide Advance;
      ExpiryNeverMoves(a, steps[..|steps| - 1], token, expiry);
      ExpiryStepsAside(Run(a, steps[..|steps| - 1]), steps[|steps| - 1], token, expiry);
    }
  }

  /** An invitation can be claimed for fifteen minutes after it was issued, to the second,
      whatever has become of it in between: handed back or not, it is never good again. */
  lemma {:induction false} InvitationLastsFifteenMinutes(a: Auth, token: Token, steps: seq<Step>)
    requires token !in a.issued
    ensures var end := Run(Advance(a, CreateInvite(token)), steps);
      && (Claimable(end, token) ==> end.now < a.now + 15 * 60)
      && (token in end.invites && !end.invites[token].used && end.now < a.now + 15 * 60 ==> Claimable(end, token))
    ensures Claimable(Advance(a, CreateInvite(token)), token)
  {
    ExpiryNeverMoves(Advance(a, CreateInvite(token)), steps, token, a.now + 15 * 60);
    hide Run;
  }

  /** The steps of an enrolment nothing goes wrong with, so long after the challenge. */
  function Enrolment(r: int, token: Token, id: string, seconds: nat, credential: string): seq<Step> {
    [BeginClaims(r, token), BeginStores(r, id), Wait(seconds), FinishTakes(r, id, Register), FinishCommits(r,
     credential)]
  }

  /** It makes the passkey exactly when the phone answers within five minutes. */
  lemma {:induction false} EnrolmentMakesThePasskeyWithinFiveMinutes(a: Auth, r: int, token: Token, id: string,
        seconds: nat, credential: string)
    requires Claimable(a, token) && r !in a.begins && r !in a.finishes
    requires id !in a.ceremonies && credential !in a.passkeys
    ensures var end := Run(a, Enrolment(r, token, id, seconds, credential));
      && (credential in end.passkeys <==> seconds < 5 * 60)
      && (credential in end.passkeys ==> end.passkeys[credential] == token)
      && !Claimable(end, token)
  {
    var begun := Advance(Advance(a, BeginClaims(r, token)), BeginStores(r, id));
    var later := Advance(begun, Wait(seconds));
    RunFive(a, Enrolment(r, token, id, seconds, credential));
    assert begun.ceremonies[id] == Ceremony(Register, token, a.now + 5 * 60);
    ChallengeIsTakenOnce(later, r, id, Register);
    hide Run;
  }

  lemma {:induction false} RunFive(a: Auth, s: seq<Step>)
    requires |s| == 5
    ensures Run(a, s) == Advance(Advance(Advance(Advance(Advance(a, s[0]), s[1]), s[2]), s[3]), s[4])
  {
    hide Advance;
    assert s[..4][..3] == s[..3] && s[..3][..2] == s[..2] && s[..2][..1] == s[..1] && s[..1][..0] == [];
    assert Run(a, s[..1]) == Advance(Run(a, []), s[0]);
    assert Run(a, s[..2]) == Advance(Run(a, s[..1]), s[1]);
    assert Run(a, s[..3]) == Advance(Run(a, s[..2]), s[2]);
    assert Run(a, s[..4]) == Advance(Run(a, s[..3]), s[3]);
  }

  // ---------------------------------------------------------------- the console

  /** What becomes of a begin once it has its invitation, and of a finish once it has
      its challenge. */
  datatype Challenged = Issued(id: string) | Failed

  datatype Answer = Accepted(credential: string) | Refused | Broken

  class Console {
    var invites: map<Token, Invite>
    var ceremonies: map<string, Ceremony>
    var passkeys: map<string, Token>
    var issued: set<Token>
    var now: int

    /** The tables together with the requests other goroutines have under way. */
    ghost function State(begins: map<int, Token>, finishes: map<int, Token>): Auth
      reads this
    {
      Auth(invites, ceremonies, passkeys, begins, finishes, issued, now)
    }

    constructor (now: int)
      ensures State(map[], map[]) == Nobody(now)
    {
      invites, ceremonies, passkeys, issued, this.now := map[], map[], map[], {}, now;
    }

    /** The check and the claim are one statement. */
    method ClaimEnrollment(token: Token) returns (claimed: bool)
      modifies this`invites
      ensures claimed == Claimable(old(State(map[], map[])), token)
      ensures State(map[], map[]) ==
        if claimed then SetUsed(old(State(map[], map[])), token, true) else old(State(map[], map[]))
    {
      claimed := token in invites && !invites[token].used && invites[token].expiresAt > now;
      if claimed {
        invites := invites[token := invites[token].(used := true)];
      }
    }

    method ReleaseEnrollment(token: Token)
      modifies this`invites
      ensures State(map[], map[]) == SetUsed(old(State(map[], map[])), token, false)
    {
      if token in invites {
        invites := invites[token := invites[token].(used := false)];
      }
    }

    method SweepExpiredAuth()
      modifies this`invites, this`ceremonies
      ensures State(map[], map[]) == SweepExpired(old(State(map[], map[])))
    {
      ceremonies := map id | id in ceremonies && ceremonies[id].expiresAt >= now :: ceremonies[id];
      invites := map t | t in invites && (invites[t].expiresAt >= now || invites[t].used) :: invites[t];
    }

    /** DELETE ... RETURNING: taken once, expired or not there at all is None. */
    method ConsumeCeremony(id: string) returns (c: Option<Ceremony>)
      modifies this`ceremonies
      ensures c ==
        if id in old(ceremonies) && old(ceremonies)[id].expiresAt > now then Some(old(ceremonies)[id]) else None
      ensures ceremonies == if c.Some? then old(ceremonies) - {id} else old(ceremonies)
    {
      if id !in ceremonies || ceremonies[id].expiresAt <= now {
        return None;
      }
      c := Some(ceremonies[id]);
      ceremonies := ceremonies - {id};
    }

    /** storeCeremony: an id that is taken fails the insert. */
    method StoreCeremony(id: string, purpose: Purpose, invite: Token) returns (stored: bool)
      modifies this`ceremonies
      ensures stored == (id !in old(ceremonies))
      ensures ceremonies ==
        if stored then old(ceremonies)[id := Ceremony(purpose, invite, now + CEREMONY_LIFETIME)] else old(ceremonies)
    {
      stored := id !in ceremonies;
      if stored {
        ceremonies := ceremonies[id := Ceremony(purpose, invite, now + CEREMONY_LIFETIME)];
      }
    }

    /** BeginEnrollment: spends the invitation first, and hands it back on every way out
        that is not a stored challenge. */
    method BeginEnrollment(token: Token, outcome: Challenged, ghost r: int, ghost begins: map<int, Token>,
          ghost finishes: map<int, Token>)
      returns (challenge: Option<string>)
      requires r !in begins
      modifies this`invites, this`ceremonies
      ensures var swept := Advance(old(State(begins, finishes)), SweepAuth);
        var claimed := if token == "" then swept else Advance(swept, BeginClaims(r, token));
        && challenge ==
             (if r in claimed.begins && outcome.Issued? && outcome.id !in swept.ceremonies then Some(outcome.id)
              else None)
        && State(begins, finishes) ==
             if r !in claimed.begins then claimed
             else Advance(claimed, if challenge.Some? then BeginStores(r, challenge.value) else BeginFails(r))
    {
      SweepExpiredAuth();
      assert State(begins, finishes) == Advance(old(State(begins, finishes)), SweepAuth);
      if token == "" {
        return None;
      }
      var claimed := ClaimEnrollment(token);
      if !claimed {
        return None;
      }
      assert begins[r := token] - {r} == begins;
      if outcome.Issued? {
        var stored := StoreCeremony(outcome.id, Register, token);
        if stored {
          return Some(outcome.id);
        }
      }
      ReleaseEnrollment(token);
      return None;
    }

    /** FinishEnrollment: takes the challenge first; a refused registration hands the
        invitation back, and any other trouble leaves it spent. */
    method FinishEnrollment(id: string, answer: Answer, ghost r: int, ghost begins: map<int, Token>,
          ghost finishes: map<int, Token>)
      returns (enrolled: bool)
      requires r !in finishes && r !in begins
      modifies this`invites, this`ceremonies, this`passkeys
      ensures var before := old(State(begins, finishes));
        var taken := if id == "" then before else Advance(before, FinishTakes(r, id, Register));
        && enrolled == (r in taken.finishes && answer.Accepted? && answer.credential !in taken.passkeys)
        && State(begins, finishes) ==
             if r !in taken.finishes then taken
             else Advance(taken,
               match answer
               case Accepted(credential) => FinishCommits(r, credential)
               case Refused => FinishRejected(r)
               case Broken => RequestDies(r))
    {
      if id == "" {
        return false;
      }
      var c := ConsumeCeremony(id);
      if c.None? || c.value.purpose != Register || c.value.invite !in invites {
        return false;
      }
      assert finishes[r := c.value.invite] - {r} == finishes && begins - {r} == begins;
      match answer
      case Broken =>
        return false;
      case Refused =>
        ReleaseEnrollment(c.value.invite);
        return false;
      case Accepted(credential) =>
        if credential in passkeys {
          return false;
        }
        passkeys := passkeys[credential := c.value.invite];
        return true;
    }
  }
}
