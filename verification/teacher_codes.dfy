/**
 * Teacher registration codes and whether one can still be redeemed. Instants are
 * integers on one clock (ticks); the current time is a parameter.
 */
module TeacherCodes {
  import opened Wrappers

  datatype TeacherRegistrationCode = TeacherRegistrationCode(
    id: int,
    code: string,
    description: string,
    createdAt: int,
    expiresAt: Option<int>,
    isUsed: bool,
    usedByUserId: Option<string>,
    usedAt: Option<int>)

  /** A code is active at `now` when nobody has used it and it has not expired. */
  predicate IsActive(c: TeacherRegistrationCode, now: int) {
    !c.isUsed && (c.expiresAt.None? || c.expiresAt.value > now)
  }

  /** A used code is never active, at any time. */
  lemma UsedCodeNeverActive(c: TeacherRegistrationCode, now: int)
    requires c.isUsed
    ensures !IsActive(c, now)
  {
  }

  /** Without an expiry date a code is active exactly as long as it is unused. */
  lemma NoExpiryActiveIffUnused(c: TeacherRegistrationCode, now: int)
    requires c.expiresAt.None?
    ensures IsActive(c, now) <==> !c.isUsed
  {
  }

  /** An unused code with an expiry date is active strictly before that instant and never from it on. */
  lemma ExpiryIsExclusive(c: TeacherRegistrationCode, now: int)
    requires !c.isUsed && c.expiresAt.Some?
    ensures IsActive(c, now) <==> now < c.expiresAt.value
    ensures !IsActive(c, c.expiresAt.value)
  {
  }

  /** A code active now was active at every earlier instant: activity never comes back once lost. */
  lemma ActiveEarlier(c: TeacherRegistrationCode, earlier: int, now: int)
    requires earlier <= now && IsActive(c, now)
    ensures IsActive(c, earlier)
  {
  }
}
