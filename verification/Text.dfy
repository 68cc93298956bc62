// Stock pieces: optional values, decimal numerals, and trimming as JavaScript's strings do it.
module Text {
  datatype Option<T> = None | Some(value: T)

  function Decimal(n: nat): (s: string)
    ensures |s| > 0 && (|s| == 1 <==> n < 10)
  {
    if n < 10 then [('0' as int + n) as char] else Decimal(n / 10) + [('0' as int + n % 10) as char]
  }

  lemma {:induction false} DecimalInjective(m: nat, n: nat)
    requires Decimal(m) == Decimal(n)
    ensures m == n
  {
    var a, b := Decimal(m), Decimal(n);
    assert a[|a| - 1] == b[|b| - 1];
    if m >= 10 {
      assert a[..|a| - 1] == Decimal(m / 10) && b[..|b| - 1] == Decimal(n / 10);
      DecimalInjective(m / 10, n / 10);
    }
  }

  /** A number as a template literal shows it. */
  function Numeral(n: int): string { if n < 0 then "-" + Decimal(-n) else Decimal(n) }

  predicate IsJsonSpace(c: char) { c == ' ' || c == '\t' || c == '\n' || c == '\r' }

  /** The other characters `String.prototype.trim` removes: white space JSON does not know. */
  predicate IsExoticSpace(c: char) {
    c == '\U{0B}' || c == '\U{0C}' || c == '\U{A0}' || c == '\U{1680}' || '\U{2000}' <= c <= '\U{200A}'
    || c == '\U{2028}' || c == '\U{2029}' || c == '\U{202F}' || c == '\U{205F}' || c == '\U{3000}' || c == '\U{FEFF}'
  }

  /** Which white space is meant: JavaScript's (all of it) or only JSON's. */
  datatype Space = Js | OnlyJson {
    predicate Has(c: char) { IsJsonSpace(c) || (Js? && IsExoticSpace(c)) }
  }

  function TrimStart(s: string, space: Space): (t: string)
    ensures t != "" ==> !space.Has(t[0])
    ensures |t| <= |s| && s[|s| - |t|..] == t && forall i :: 0 <= i < |s| - |t| ==> space.Has(s[i])
  {
    if s != "" && space.Has(s[0]) then TrimStart(s[1..], space) else s
  }

  function TrimEnd(s: string, space: Space): (t: string)
    ensures t != "" ==> !space.Has(t[|t| - 1])
    ensures t <= s && forall i :: |t| <= i < |s| ==> space.Has(s[i])
  {
    if s != "" && space.Has(s[|s| - 1]) then TrimEnd(s[..|s| - 1], space) else s
  }

  function Trim(s: string): string { TrimEnd(TrimStart(s, Js), Js) }

  lemma TrimTight(s: string)
    requires s != "" && !Js.Has(s[0]) && !Js.Has(s[|s| - 1])
    ensures Trim(s) == s
  {
  }

  lemma Associative<T>(a: seq<T>, b: seq<T>, c: seq<T>)
    ensures a + (b + c) == a + b + c
  {
  }
}
