/**
 * The User record and the validation rules its attributes declare.
 */
module Users {

  /** An instant, in the clock's ticks; every reading of the clock is an input. */
  type Time = int

  datatype User = User(
    id: int,
    name: string,
    email: string,
    createdAt: Time,
    updatedAt: Time,
    isActive: bool)

  const NameMinLength := 2
  const NameMaxLength := 100

  /** `char.IsWhiteSpace`: the Unicode separators plus the control characters U+0009-U+000D and U+0085. */
  predicate IsWhiteSpace(c: char)
  {
    var n := c as int;
    (0x09 <= n <= 0x0D) || n == 0x20 || n == 0x85 || n == 0xA0 || n == 0x1680 ||
    (0x2000 <= n <= 0x200A) || n == 0x2028 || n == 0x2029 || n == 0x202F ||
    n == 0x205F || n == 0x3000
  }

  /** `[Required]` on a string: some character is not white space. */
  predicate Required(s: string)
  {
    exists i :: 0 <= i < |s| && !IsWhiteSpace(s[i])
  }

  /** `[Required]` and `[StringLength(100, MinimumLength = 2)]` on Name. */
  predicate NameValid(name: string)
  {
    Required(name) && NameMinLength <= |name| <= NameMaxLength
  }

  /**
   * `[Required]` and `[EmailAddress]` on Email. The shape check belongs to
   * the framework, so it is a parameter here.
   */
  predicate EmailValid(email: string, emailShaped: string -> bool)
  {
    Required(email) && emailShaped(email)
  }

  /** The record passes every validation attribute it declares. */
  predicate IsValid(u: User, emailShaped: string -> bool)
  {
    NameValid(u.name) && EmailValid(u.email, emailShaped)
  }

  /**
   * `new User()`: the property initialisers. Each of the two timestamps
   * reads the clock on its own, hence two readings.
   */
  function NewUser(clockForCreated: Time, clockForUpdated: Time): (u: User)
    ensures u.isActive
    ensures u.createdAt == clockForCreated && u.updatedAt == clockForUpdated
    ensures forall shape: string -> bool :: !IsValid(u, shape)
  {
    User(0, "", "", clockForCreated, clockForUpdated, true)
  }

  /** A name of white space only fails validation whatever its length. */
  lemma BlankNameFailsValidation(u: User, shape: string -> bool)
    requires forall i :: 0 <= i < |u.name| ==> IsWhiteSpace(u.name[i])
    ensures !IsValid(u, shape)
  {
  }

  /** The length limits are inclusive: 2 and 100 characters pass, 1 and 101 do not. */
  lemma NameLengthLimits()
    ensures NameValid("Al") && !NameValid("A")
    ensures NameValid(seq(100, _ => 'a')) && !NameValid(seq(101, _ => 'a'))
  {
    assert !IsWhiteSpace("Al"[0]);
    assert !IsWhiteSpace(seq(100, _ => 'a')[0]);
  }
}
