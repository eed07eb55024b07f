/** The textual form of a uuid, as the booking request schemas accept it:
    8-4-4-4-12 hex digits separated by dashes, in either case. The database
    compares the 128-bit value the digits denote. */
module Uuid {
  import opened Common
  import Hex

  predicate IsDashPos(i: int) {
    i == 8 || i == 13 || i == 18 || i == 23
  }

  predicate IsUuidText(s: string) {
    && |s| == 36
    && (forall i :: 0 <= i < 36 && IsDashPos(i) ==> s[i] == '-')
    && (forall i :: 0 <= i < 36 && !IsDashPos(i) ==> Hex.IsHexDigit(s[i]))
  }

  /** The 32 digits of a uuid text, dashes removed. */
  function HexPart(s: string): (r: string)
    requires |s| == 36
    ensures |r| == 32
  {
    seq(32, k requires 0 <= k < 32 => s[TextPos(k)])
  }

  /** Position in the text of the `k`-th digit. */
  function TextPos(k: int): (i: int)
    requires 0 <= k < 32
    ensures 0 <= i < 36 && !IsDashPos(i)
  {
    if k < 8 then k else if k < 12 then k + 1 else if k < 16 then k + 2 else if k < 20 then k + 3 else k + 4
  }

  /** Which digit sits at a non-dash position of the text. */
  function DigitIndex(i: int): (k: int)
    requires 0 <= i < 36 && !IsDashPos(i)
    ensures 0 <= k < 32 && TextPos(k) == i
  {
    if i < 8 then i else if i < 13 then i - 1 else if i < 18 then i - 2 else if i < 23 then i - 3 else i - 4
  }

  lemma DigitIndexTextPos(k: int)
    requires 0 <= k < 32
    ensures DigitIndex(TextPos(k)) == k
  {
    if k < 8 {
    } else if k < 12 {
    } else if k < 16 {
    } else if k < 20 {
    } else {
    }
  }

  lemma HexPartAt(s: string, k: int)
    requires |s| == 36 && 0 <= k < 32
    ensures 0 <= TextPos(k) < 36 && !IsDashPos(TextPos(k))
    ensures HexPart(s)[k] == s[TextPos(k)]
  {
  }

  lemma HexPartDigits(s: string)
    requires IsUuidText(s)
    ensures forall k :: 0 <= k < 32 ==> Hex.IsHexDigit(HexPart(s)[k])
  {
    forall k | 0 <= k < 32 ensures Hex.IsHexDigit(HexPart(s)[k]) {
      HexPartAt(s, k);
    }
  }

  /** The id a uuid text denotes, or None when the text is not a uuid. */
  function Parse(s: string): (r: Option<Id>)
    ensures r.Some? <==> IsUuidText(s)
    ensures r.Some? ==> r.value < Hex.Pow16(32)
  {
    if IsUuidText(s) then
      HexPartDigits(s);
      Hex.ValueBound(HexPart(s));
      Some(Hex.Value(HexPart(s)))
    else None
  }

  /** The canonical lower-case text of a uuid. */
  function Format(n: Id): (s: string)
    requires n < Hex.Pow16(32)
    ensures |s| == 36
  {
    var d := Hex.Digits(n, 32);
    seq(36, i requires 0 <= i < 36 => if IsDashPos(i) then '-' else d[DigitIndex(i)])
  }

  lemma FormatShape(n: Id)
    requires n < Hex.Pow16(32)
    ensures IsUuidText(Format(n))
    ensures HexPart(Format(n)) == Hex.Digits(n, 32)
  {
    FormatIsUuid(n);
    FormatHexPart(n);
  }

  lemma FormatIsUuid(n: Id)
    requires n < Hex.Pow16(32)
    ensures IsUuidText(Format(n))
  {
    var s := Format(n);
    forall i | 0 <= i < 36 && !IsDashPos(i) ensures Hex.IsHexDigit(s[i]) {
      assert s[i] == Hex.Digits(n, 32)[DigitIndex(i)];
    }
  }

  lemma FormatHexPart(n: Id)
    requires n < Hex.Pow16(32)
    ensures HexPart(Format(n)) == Hex.Digits(n, 32)
  {
    var d := Hex.Digits(n, 32);
    var s := Format(n);
    forall k | 0 <= k < 32 ensures HexPart(s)[k] == d[k] {
      HexPartAt(s, k);
      DigitIndexTextPos(k);
    }
  }

  /** Every uuid value survives formatting and parsing back. */
  lemma ParseFormat(n: Id)
    requires n < Hex.Pow16(32)
    ensures Parse(Format(n)) == Some(n)
  {
    FormatShape(n);
    Hex.ValueDigits(n, 32);
  }

  /** Parsing a uuid text and formatting the value back gives the text with its
      hex letters in lower case: two texts denote the same id exactly when they
      differ only in letter case. */
  lemma FormatParse(s: string)
    requires IsUuidText(s)
    ensures Parse(s).Some?
    ensures Format(Parse(s).value) == LowerUuid(s)
  {
    var n := Parse(s).value;
    var h := HexPart(s);
    HexPartDigits(s);
    Hex.DigitsValue(h);
    var d := Hex.Digits(n, 32);
    assert forall k :: 0 <= k < 32 ==> d[k] == Hex.LowerHex(h[k]);
    FormatOfDigits(n, s);
  }

  /** A value whose digits are the lower-cased digits of a uuid text formats
      to the lower-cased text. */
  lemma FormatOfDigits(n: Id, s: string)
    requires IsUuidText(s) && n < Hex.Pow16(32)
    requires forall k :: 0 <= k < 32 ==> Hex.Digits(n, 32)[k] == Hex.LowerHex(HexPart(s)[k])
    ensures Format(n) == LowerUuid(s)
  {
    var f := Format(n);
    var l := LowerUuid(s);
    forall i | 0 <= i < 36 ensures f[i] == l[i] {
      if !IsDashPos(i) {
        HexPartAt(s, DigitIndex(i));
      }
    }
  }

  /** A uuid text with its hex letters lower-cased. */
  function LowerUuid(s: string): (r: string)
    requires IsUuidText(s)
    ensures |r| == 36
  {
    seq(36, i requires 0 <= i < 36 => if IsDashPos(i) then '-' else Hex.LowerHex(s[i]))
  }

  // ------------------------------------------------- the database's reading

  predicate HexRun(s: string) {
    forall i :: 0 <= i < |s| ==> Hex.IsHexDigit(s[i])
  }

  /** `g` groups of four hex digits as the database's uuid input reads them:
      one '-' may follow any group but the last. The result is the digits
      read, dashes dropped, or None at the first character out of place. */
  function Groups(b: string, g: nat): (r: Option<string>)
    ensures r.Some? ==> |r.value| == 4 * g && HexRun(r.value)
  {
    if g == 0 then (if |b| == 0 then Some("") else None)
    else if |b| < 4 || !HexRun(b[..4]) then None
    else
      var rest := if g > 1 && |b| > 4 && b[4] == '-' then b[5..] else b[4..];
      match Groups(rest, g - 1)
      case None => None
      case Some(d) => Some(b[..4] + d)
  }

  /** The uuid a text denotes for a `uuid` column (section 8.12 of the
      PostgreSQL documentation): 32 hex digits in either case, a '-' allowed
      after any group of four, the whole optionally in braces. This is wider
      than the request schemas' 8-4-4-4-12 shape. */
  function DbParse(s: string): (r: Option<Id>)
    ensures r.Some? ==> r.value < Hex.Pow16(32)
  {
    var inner := if |s| > 0 && s[0] == '{' then (if |s| >= 2 && s[|s| - 1] == '}' then Some(s[1..|s| - 1]) else None)
                 else Some(s);
    if inner.None? then None
    else match Groups(inner.value, 8)
      case None => None
      case Some(d) =>
        Hex.ValueBound(d);
        Some(Hex.Value(d))
  }

  /** Digits with no dash read as themselves. */
  lemma {:induction false} GroupsPlain(d: string, g: nat)
    requires |d| == 4 * g && HexRun(d)
    ensures Groups(d, g) == Some(d)
  {
    if g > 0 {
      assert HexRun(d[..4]);
      assert g == 1 || Hex.IsHexDigit(d[4]);
      GroupsPlain(d[4..], g - 1);
      assert d == d[..4] + d[4..];
    }
  }

  /** A group followed by a dash: the dash is skipped. */
  lemma GroupsDash(b: string, g: nat)
    requires g > 1 && |b| >= 5 && HexRun(b[..4]) && b[4] == '-'
    ensures Groups(b, g) == if Groups(b[5..], g - 1).None? then None else Some(b[..4] + Groups(b[5..], g - 1).value)
  {
  }

  /** A group followed by a digit: the next group starts right away. */
  lemma GroupsNoDash(b: string, g: nat)
    requires g > 0 && |b| >= 4 && HexRun(b[..4]) && (|b| == 4 || b[4] != '-')
    ensures Groups(b, g) == if Groups(b[4..], g - 1).None? then None else Some(b[..4] + Groups(b[4..], g - 1).value)
  {
  }

  /** The request schemas' shape, dashes after the second, third, fourth and
      fifth groups, reads as its 32 digits. */
  lemma GroupsCanonical(s: string)
    requires IsUuidText(s)
    ensures Groups(s, 8) == Some(HexPart(s))
  {
    var tail := s[9..13] + (s[14..18] + (s[19..23] + s[24..]));
    GroupsCanonicalTail(s);
    GroupsDash(s[4..], 7);
    assert s[4..][5..] == s[9..] && s[4..][..4] == s[4..8];
    GroupsNoDash(s, 8);
    assert s[..4] + (s[4..8] + tail) == s[..4] + (s[4..8] + (s[9..13] + (s[14..18] + (s[19..23] + s[24..]))));
    CanonicalDigits(s, s[..4] + (s[4..8] + tail));
  }

  /** From the second dash on, the text reads as its remaining digits. */
  lemma GroupsCanonicalTail(s: string)
    requires IsUuidText(s)
    ensures Groups(s[9..], 6) == Some(s[9..13] + (s[14..18] + (s[19..23] + s[24..])))
  {
    var t := s[24..];
    assert HexRun(t) by {
      forall i | 0 <= i < |t| ensures Hex.IsHexDigit(t[i]) {
        assert t[i] == s[24 + i];
      }
    }
    GroupsPlain(t, 3);
    GroupsDash(s[19..], 4);
    assert s[19..][5..] == t && s[19..][..4] == s[19..23];
    GroupsDash(s[14..], 5);
    assert s[14..][5..] == s[19..] && s[14..][..4] == s[14..18];
    GroupsDash(s[9..], 6);
    assert s[9..][5..] == s[14..] && s[9..][..4] == s[9..13];
  }

  lemma CanonicalDigits(s: string, d: string)
    requires IsUuidText(s)
    requires d == s[..4] + (s[4..8] + (s[9..13] + (s[14..18] + (s[19..23] + s[24..]))))
    ensures d == HexPart(s)
  {
    forall k | 0 <= k < 32 ensures d[k] == HexPart(s)[k] {
      HexPartAt(s, k);
    }
  }

  /** Every text the request schemas accept, the database reads as the same
      id. */
  lemma DbParseAgrees(s: string)
    requires IsUuidText(s)
    ensures DbParse(s) == Parse(s)
  {
    GroupsCanonical(s);
  }

  /** The 32 digits with no dash read as the id they denote. */
  lemma DbParseBare(n: Id)
    requires n < Hex.Pow16(32)
    ensures DbParse(Hex.Digits(n, 32)) == Some(n)
  {
    var d := Hex.Digits(n, 32);
    assert HexRun(d);
    DbParsePlain(d);
    Hex.ValueDigits(n, 32);
  }

  /** 32 hex digits with no dash read as their value. */
  lemma DbParsePlain(d: string)
    requires |d| == 32 && HexRun(d)
    ensures DbParse(d) == Some(Hex.Value(d))
  {
    assert Hex.IsHexDigit(d[0]);
    GroupsPlain(d, 8);
  }

  /** Braces around an accepted text change nothing. */
  lemma DbParseBraced(s: string)
    requires IsUuidText(s)
    ensures DbParse("{" + s + "}") == Parse(s)
  {
    var b := "{" + s + "}";
    assert b[1..|b| - 1] == s;
    GroupsCanonical(s);
  }
}
