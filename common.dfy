/** Types shared by every service of the parking backend: nullable values,
    the exceptions the services throw, instants, and the few java.lang.String
    operations the services rely on. */
module Common {

  /** A Java reference that may be null. */
  datatype Option<T> = None | Some(value: T)

  /** The exception classes the services throw, each with its message. */
  datatype Error =
    | IllegalArgument(msg: string)    // IllegalArgumentException
    | EntityNotFound(msg: string)     // jakarta.persistence.EntityNotFoundException
    | IllegalState(msg: string)       // IllegalStateException
    | Runtime(msg: string)            // RuntimeException, NoSuchElementException
    | UsernameNotFound(msg: string)   // Spring Security UsernameNotFoundException
    | Locked(msg: string)             // Spring Security LockedException
    | NullPointer                     // NullPointerException from dereferencing a missing link
    | ConstraintViolation(msg: string) // jakarta.validation.ConstraintViolationException raised by save

  /** A call that either returns a value or throws. */
  datatype Result<T> = Ok(value: T) | Err(error: Error)

  /** A LocalDateTime, as whole seconds on one time line. */
  type Time = int

  const MINUTE: int := 60
  const HOUR: int := 60 * MINUTE
  const DAY: int := 24 * HOUR
  /** plusWeeks(1) */
  const WEEK: int := 7 * DAY

  /** The length of a calendar month starting at a given instant (plusMonths(1)):
      only its positivity is modelled. */
  type Duration = d: int | d > 0 witness 1

  // ---------------------------------------------------------------- strings

  /** Character.isWhitespace */
  predicate IsJavaWhitespace(c: char)
  {
    ('\U{9}' <= c <= '\U{D}') || ('\U{1C}' <= c <= ' ') || c == '\U{1680}'
    || ('\U{2000}' <= c <= '\U{2006}') || ('\U{2008}' <= c <= '\U{200A}')
    || c == '\U{2028}' || c == '\U{2029}' || c == '\U{205F}' || c == '\U{3000}'
  }

  /** String.isBlank: empty or only white space. */
  predicate IsBlank(s: string)
  {
    forall i :: 0 <= i < |s| ==> IsJavaWhitespace(s[i])
  }

  /** String.trim removes every leading and trailing character up to U+0020. */
  function TrimStart(s: string): (r: string)
    ensures |r| <= |s| && r == s[|s| - |r|..]
    ensures r != [] ==> r[0] > ' '
    ensures forall i :: 0 <= i < |s| - |r| ==> s[i] <= ' '
  {
    if s != [] && s[0] <= ' ' then TrimStart(s[1..]) else s
  }

  function TrimEnd(s: string): (r: string)
    ensures |r| <= |s| && r == s[..|r|]
    ensures r != [] ==> r[|r| - 1] > ' '
    ensures forall i :: |r| <= i < |s| ==> s[i] <= ' '
  {
    if s != [] && s[|s| - 1] <= ' ' then TrimEnd(s[..|s| - 1]) else s
  }

  function Trim(s: string): (r: string)
  {
    TrimEnd(TrimStart(s))
  }

  /** The trimmed string is empty exactly when every character is at most U+0020. */
  lemma TrimEmpty(s: string)
    ensures Trim(s) == [] <==> forall i :: 0 <= i < |s| ==> s[i] <= ' '
  {
    var t := TrimStart(s);
    if Trim(s) == [] {
      assert t == [];
    } else {
      var r := Trim(s);
      assert r[0] == t[0] && t[0] == s[|s| - |t|];
    }
  }

  /** !s.trim().isEmpty(): some character lies above U+0020. */
  predicate TieneTexto(s: string)
  {
    !(forall i :: 0 <= i < |s| ==> s[i] <= ' ')
  }

  /** TieneTexto is exactly a non-empty trim. */
  lemma TieneTextoSiiTrim(s: string)
    ensures TieneTexto(s) <==> Trim(s) != []
  {
    TrimEmpty(s);
  }

  /** String.toLowerCase on the characters the application's texts use:
      ASCII and the Latin-1 capitals (Á, É, Í, Ó, Ú, Ñ, Ü, ...); other
      characters are left as they are. */
  function ToLowerChar(c: char): char
  {
    if 'A' <= c <= 'Z' || ('\U{C0}' <= c <= '\U{DE}' && c != '\U{D7}') then (c as int + 32) as char else c
  }

  function ToLower(s: string): (r: string)
    ensures |r| == |s|
  {
    seq(|s|, i requires 0 <= i < |s| => ToLowerChar(s[i]))
  }

  /** Character.toUpperCase on ASCII, Latin-1 and the three characters
      whose upper case is an ASCII letter or leaves Latin-1: ÿ, µ, the
      dotless ı and the long ſ. */
  function UpperCaseChar(c: char): char
  {
    if 'a' <= c <= 'z' || ('\U{E0}' <= c <= '\U{FE}' && c != '\U{F7}') then (c as int - 32) as char
    else if c == '\U{FF}' then '\U{178}'
    else if c == '\U{B5}' then '\U{39C}'
    else if c == '\U{131}' then 'I'
    else if c == '\U{17F}' then 'S'
    else c
  }

  /** Character.toLowerCase on ASCII, Latin-1 and the characters whose lower
      case is an ASCII or Latin-1 letter: Ÿ, the dotted İ, the Kelvin sign
      and the Angstrom sign. */
  function LowerCaseChar(c: char): char
  {
    if 'A' <= c <= 'Z' || ('\U{C0}' <= c <= '\U{DE}' && c != '\U{D7}') then (c as int + 32) as char
    else if c == '\U{178}' then '\U{FF}'
    else if c == '\U{130}' then 'i'
    else if c == '\U{212A}' then 'k'
    else if c == '\U{212B}' then '\U{E5}'
    else c
  }

  /** The per-character test of String.equalsIgnoreCase: the characters are
      equal, or their upper cases are, or the lower cases of those are. */
  predicate CharsIgualesIgnoreCase(a: char, b: char)
  {
    a == b || UpperCaseChar(a) == UpperCaseChar(b)
    || LowerCaseChar(UpperCaseChar(a)) == LowerCaseChar(UpperCaseChar(b))
  }

  /** String.equalsIgnoreCase: equal lengths and the per-character test at
      every position. */
  predicate EqualsIgnoreCase(a: string, b: string)
  {
    |a| == |b| && forall i :: 0 <= i < |a| ==> CharsIgualesIgnoreCase(a[i], b[i])
  }

  /** The characters that spell the capital ASCII letter `x` ignoring case:
      itself, its small letter, and the non-ASCII forms Java folds onto it. */
  predicate VarianteDeLetra(x: char, c: char)
  {
    c == x || c as int == x as int + 32
    || (x == 'I' && (c == '\U{131}' || c == '\U{130}'))
    || (x == 'S' && c == '\U{17F}')
    || (x == 'K' && c == '\U{212A}')
  }

  /** Against a capital ASCII letter, the per-character test of
      equalsIgnoreCase accepts exactly that letter's variants. */
  lemma IgualLetraMayusculaSii(x: char, c: char)
    requires 'A' <= x <= 'Z'
    ensures CharsIgualesIgnoreCase(x, c) <==> VarianteDeLetra(x, c)
  {
  }

  /** Against a text of capital ASCII letters, equalsIgnoreCase accepts
      exactly the texts of the same length that spell each letter by one of
      its variants. */
  lemma EqualsIgnoreCaseMayusculasSii(a: string, b: string)
    requires forall i :: 0 <= i < |a| ==> 'A' <= a[i] <= 'Z'
    ensures EqualsIgnoreCase(a, b) <==> |a| == |b| && forall i :: 0 <= i < |a| ==> VarianteDeLetra(a[i], b[i])
  {
    if |a| == |b| {
      forall i | 0 <= i < |a|
        ensures CharsIgualesIgnoreCase(a[i], b[i]) <==> VarianteDeLetra(a[i], b[i])
      {
        IgualLetraMayusculaSii(a[i], b[i]);
      }
    }
  }

  predicate OccursAt(s: string, p: string, i: int)
  {
    0 <= i <= |s| - |p| && s[i..i + |p|] == p
  }

  /** String.contains */
  predicate Contains(s: string, p: string)
  {
    exists i :: 0 <= i <= |s| - |p| && OccursAt(s, p, i)
  }

  lemma ContainsAt(s: string, p: string, i: int)
    requires OccursAt(s, p, i)
    ensures Contains(s, p)
  {
  }

  /** A text without the first character of the pattern cannot contain it. */
  lemma NotContainsFirst(s: string, p: string)
    requires |p| > 0 && forall i :: 0 <= i < |s| ==> s[i] != p[0]
    ensures !Contains(s, p)
  {
    forall i | 0 <= i <= |s| - |p| ensures !OccursAt(s, p, i) {
      assert s[i..i + |p|][0] == s[i];
    }
  }

  /** A text that contains p + q contains p. */
  lemma ContainsPrefix(s: string, p: string, q: string)
    requires Contains(s, p + q)
    ensures Contains(s, p)
  {
    var i :| 0 <= i <= |s| - |p + q| && OccursAt(s, p + q, i);
    assert s[i..i + |p|] == (p + q)[..|p|];
    assert OccursAt(s, p, i);
  }

  /** Every text contains itself. */
  lemma ContainsSelf(s: string)
    ensures Contains(s, s)
  {
    assert OccursAt(s, s, 0);
  }

  /** A text contains every piece of a concatenation it is made of. */
  lemma ContainsMiddle(a: string, b: string, c: string)
    ensures Contains(a + b + c, b)
  {
    var s := a + b + c;
    assert s[|a|..|a| + |b|] == b;
    assert OccursAt(s, b, |a|);
  }

  function DigitChar(d: nat): char
    requires d < 10
  {
    (48 + d) as char
  }

  /** Long.toString / string concatenation of a non-negative number. */
  function NatToString(n: nat): (r: string)
    ensures |r| > 0
    ensures forall i :: 0 <= i < |r| ==> '0' <= r[i] <= '9'
  {
    if n < 10 then [DigitChar(n)] else NatToString(n / 10) + [DigitChar(n % 10)]
  }

  /** The decimal rendering of an instant (LocalDateTime.toString is not modelled). */
  function TimeToString(t: Time): string
  {
    if t < 0 then "-" + NatToString(-t) else NatToString(t)
  }
}
