/**
 * The store of e-mail verification codes: each e-mail maps to the code last
 * sent to it and the instant that code expires. Expiry is checked when a code
 * is verified; a successful verification consumes the code, a wrong guess
 * leaves it in place.
 */
module VerificationCodes {
  import opened Wrappers
  import opened GoTypes

  datatype Entry = Entry(code: string, expiresAt: Instant)

  /** The answer of one Verify and the table it leaves behind. */
  datatype Verdict = Verdict(ok: bool, codes: map<string, Entry>)

  /** What Verify does to the table `codes` at instant `now`. */
  function Check(codes: map<string, Entry>, email: string, code: string, now: Instant): (v: Verdict)
    ensures v.ok <==> email in codes && !After(now, codes[email].expiresAt) && codes[email].code == code
    ensures v.codes == codes || v.codes == codes - {email}
    ensures email in codes ==> (email !in v.codes <==> v.ok || After(now, codes[email].expiresAt))
  {
    if email !in codes then Verdict(false, codes)
    else if After(now, codes[email].expiresAt) then Verdict(false, codes - {email})
    else if codes[email].code != code then Verdict(false, codes)
    else Verdict(true, codes - {email})
  }

  class VerificationStore {
    var codes: map<string, Entry>
    const ttl: Duration

    constructor (ttl: Duration)
      ensures this.ttl == ttl && codes == map[]
    {
      this.ttl := ttl;
      codes := map[];
    }

    /** Installs code for email, replacing any earlier entry, to expire ttl after now. */
    method Set(email: string, code: string, now: Instant)
      modifies this
      ensures codes == old(codes)[email := Entry(code, Add(now, ttl))]
    {
      codes := codes[email := Entry(code, Add(now, ttl))];
    }

    method Verify(email: string, code: string, now: Instant) returns (ok: bool)
      modifies this
      ensures Verdict(ok, codes) == Check(old(codes), email, code, now)
    {
      if email !in codes {
        return false;
      }
      var entry := codes[email];
      if After(now, entry.expiresAt) {
        codes := codes - {email};
        return false;
      }
      if entry.code != code {
        return false;
      }
      codes := codes - {email};
      return true;
    }
  }

  /** A code verifies at any instant up to and including its expiry. */
  lemma VerifyAfterSet(codes: map<string, Entry>, ttl: Duration, email: string, code: string, t: Instant, t': Instant)
    requires t' <= Add(t, ttl)
    ensures Check(codes[email := Entry(code, Add(t, ttl))], email, code, t') == Verdict(true, codes - {email})
  {
    assert codes[email := Entry(code, Add(t, ttl))] - {email} == codes - {email};
  }

  /** Set replaces the earlier code: a different earlier code no longer verifies. */
  lemma SetOverwrites(codes: map<string, Entry>, email: string, earlier: string, later: string, expiresAt: Instant, now: Instant)
    requires earlier != later
    ensures !Check(codes[email := Entry(later, expiresAt)], email, earlier, now).ok
  {
  }

  lemma VerifyAbsent(codes: map<string, Entry>, email: string, code: string, now: Instant)
    requires email !in codes
    ensures Check(codes, email, code, now) == Verdict(false, codes)
  {
  }

  /** An entry seen after its expiry is refused and removed. */
  lemma VerifyExpired(codes: map<string, Entry>, email: string, code: string, now: Instant)
    requires email in codes && After(now, codes[email].expiresAt)
    ensures Check(codes, email, code, now) == Verdict(false, codes - {email})
  {
  }

  /** A wrong guess keeps the entry, so the right code still verifies later within its lifetime. */
  lemma WrongGuessKeepsEntry(codes: map<string, Entry>, email: string, guess: string, now: Instant, later: Instant)
    requires email in codes && !After(now, codes[email].expiresAt) && guess != codes[email].code
    requires later <= codes[email].expiresAt
    ensures Check(codes, email, guess, now) == Verdict(false, codes)
    ensures Check(Check(codes, email, guess, now).codes, email, codes[email].code, later).ok
  {
  }

  /** A code is consumed by its first successful use. */
  lemma SingleUse(codes: map<string, Entry>, email: string, code: string, now: Instant, later: Instant)
    requires Check(codes, email, code, now).ok
    ensures !Check(Check(codes, email, code, now).codes, email, code, later).ok
  {
  }

  /** Set and Verify on one e-mail leave every other e-mail's entry as it was. */
  lemma OtherEmailsUntouched(codes: map<string, Entry>, email: string, other: string, code: string, ttl: Duration, now: Instant)
    requires other != email
    ensures other in codes[email := Entry(code, Add(now, ttl))] <==> other in codes
    ensures other in Check(codes, email, code, now).codes <==> other in codes
    ensures other in codes ==> codes[email := Entry(code, Add(now, ttl))][other] == codes[other]
    ensures other in codes ==> Check(codes, email, code, now).codes[other] == codes[other]
  {
  }

  // ---------------------------------------------------------------------
  // Sequences of operations on one store.

  datatype Op = SetCode(email: string, code: string, now: Instant) | VerifyCode(email: string, code: string, now: Instant)

  function Step(codes: map<string, Entry>, ttl: Duration, op: Op): Verdict {
    match op
    case SetCode(e, c, t) => Verdict(false, codes[e := Entry(c, Add(t, ttl))])
    case VerifyCode(e, c, t) => Check(codes, e, c, t)
  }

  /** The table after performing ops in order, starting from codes. */
  function Run(codes: map<string, Entry>, ttl: Duration, ops: seq<Op>): map<string, Entry> {
    if ops == [] then codes else Step(Run(codes, ttl, ops[..|ops| - 1]), ttl, ops[|ops| - 1]).codes
  }

  /** How many of the Verify calls in ops succeed for email. */
  function Successes(codes: map<string, Entry>, ttl: Duration, ops: seq<Op>, email: string): nat {
    if ops == [] then 0 else
      var op := ops[|ops| - 1];
      Successes(codes, ttl, ops[..|ops| - 1], email)
      + (if op.VerifyCode? && op.email == email && Step(Run(codes, ttl, ops[..|ops| - 1]), ttl, op).ok then 1 else 0)
  }

  function SetsOf(ops: seq<Op>, email: string): nat {
    if ops == [] then 0 else
      var op := ops[|ops| - 1];
      SetsOf(ops[..|ops| - 1], email) + (if op.SetCode? && op.email == email then 1 else 0)
  }

  /**
   * Every successful verification consumes one stored code: over any run,
   * an e-mail's successes (plus a code still stored at the end) never exceed
   * the codes set for it (plus one stored at the start).
   */
  lemma {:induction false} SuccessesBoundedBySets(codes: map<string, Entry>, ttl: Duration, ops: seq<Op>, email: string)
    ensures Successes(codes, ttl, ops, email) + (if email in Run(codes, ttl, ops) then 1 else 0)
            <= SetsOf(ops, email) + (if email in codes then 1 else 0)
  {
    if ops != [] {
      SuccessesBoundedBySets(codes, ttl, ops[..|ops| - 1], email);
    }
  }

  /** The last SetCode for email in ops, if any. */
  function LastSet(ops: seq<Op>, email: string): Option<Op> {
    if ops == [] then None
    else if ops[|ops| - 1].SetCode? && ops[|ops| - 1].email == email then Some(ops[|ops| - 1])
    else LastSet(ops[..|ops| - 1], email)
  }

  /** Starting from an empty store, a stored entry is always the one the latest Set installed. */
  lemma {:induction false} StoredIsLatest(ttl: Duration, ops: seq<Op>, email: string)
    ensures email in Run(map[], ttl, ops) ==>
      LastSet(ops, email).Some? && Run(map[], ttl, ops)[email] == Entry(LastSet(ops, email).value.code, Add(LastSet(ops, email).value.now, ttl))
  {
    if ops != [] {
      StoredIsLatest(ttl, ops[..|ops| - 1], email);
    }
  }

  /** Only the latest code sent to an e-mail can verify, and only until ttl after it was sent. */
  lemma OnlyLatestCodeVerifies(ttl: Duration, ops: seq<Op>, email: string, code: string, now: Instant)
    requires Check(Run(map[], ttl, ops), email, code, now).ok
    ensures LastSet(ops, email).Some?
    ensures LastSet(ops, email).value.code == code && now <= Add(LastSet(ops, email).value.now, ttl)
  {
    StoredIsLatest(ttl, ops, email);
  }
}
