/**
 The reading of lifetimes such as "15m" or "7d" (backend/src/auth/auth.service.ts), which decides how
 long a revoked token family stays revoked.
 */
module Durations {
  import opened Decimals
  import opened TokenRotation

  predicate Blank(c: char) {
    c == ' ' || c == '\t' || c == '\n' || c == '\r'
  }

  predicate Unit(c: char) {
    c in {'s', 'm', 'h', 'd', 'S', 'M', 'H', 'D'}
  }

  function UnitSeconds(c: char): nat {
    if c == 'm' || c == 'M' then 60 else if c == 'h' || c == 'H' then 3600 else if c == 'd' || c == 'D' then 86_400
        else 1
  }

  /** Length of the leading run of digits. */
  function DigitsIn(s: string): (n: nat)
    ensures n <= |s|
  {
    if s != "" && Digit(s[0]) then 1 + DigitsIn(s[1..]) else 0
  }

  function SkipBlanks(s: string): string {
    if s != "" && Blank(s[0]) then SkipBlanks(s[1..]) else s
  }

  lemma {:induction false} LeadingAreDigits(s: string)
    ensures forall i :: 0 <= i < DigitsIn(s) ==> Digit(s[i])
  {
    if s != "" && Digit(s[0]) {
      LeadingAreDigits(s[1..]);
      assert forall i :: 0 < i < DigitsIn(s) ==> s[i] == s[1..][i - 1];
    }
  }

  function DropBlanks(s: string): string {
    if s != "" && Blank(s[|s| - 1]) then DropBlanks(s[..|s| - 1]) else s
  }

  function Trim(s: string): string {
    DropBlanks(SkipBlanks(s))
  }

  /** Digits, then blanks, then one unit letter or nothing. */
  predicate Notation(s: string) {
    var rest := SkipBlanks(s[DigitsIn(s)..]);
    DigitsIn(s) > 0 && (rest == "" || (|rest| == 1 && Unit(rest[0])))
  }

  predicate Readable(value: string) {
    Notation(Trim(value))
  }

  function DurationToSeconds(value: string): nat {
    var s := Trim(value);
    if !Notation(s) then 0
    else
      LeadingAreDigits(s);
      var rest := SkipBlanks(s[DigitsIn(s)..]);
      Decimal(s[..DigitsIn(s)]) * (if rest == "" then 1 else UnitSeconds(rest[0]))
  }

  predicate AllBlank(s: string) {
    forall i :: 0 <= i < |s| ==> Blank(s[i])
  }

  lemma {:induction false} DigitsOf(digits: string, rest: string)
    requires AllDigits(digits) && (rest == "" || !Digit(rest[0]))
    ensures DigitsIn(digits + rest) == |digits|
  {
    if digits != "" {
      assert (digits + rest)[1..] == digits[1..] + rest;
      DigitsOf(digits[1..], rest);
    } else {
      assert digits + rest == rest;
    }
  }

  lemma {:induction false} BlanksSkipped(blanks: string, rest: string)
    requires AllBlank(blanks) && (rest == "" || !Blank(rest[0]))
    ensures SkipBlanks(blanks + rest) == rest
  {
    if blanks == "" {
      assert blanks + rest == rest;
    } else {
      assert (blanks + rest)[1..] == blanks[1..] + rest;
      BlanksSkipped(blanks[1..], rest);
    }
  }

  lemma {:induction false} BlanksDropped(s: string, blanks: string)
    requires AllBlank(blanks) && (s == "" || !Blank(s[|s| - 1]))
    ensures DropBlanks(s + blanks) == s
  {
    if blanks == "" {
      assert s + blanks == s;
    } else {
      assert (s + blanks)[..|s + blanks| - 1] == s + blanks[..|blanks| - 1];
      BlanksDropped(s, blanks[..|blanks| - 1]);
    }
  }

  lemma Trimmed(before: string, s: string, after: string)
    requires AllBlank(before) && AllBlank(after) && s != "" && !Blank(s[0]) && !Blank(s[|s| - 1])
    ensures Trim(before + s + after) == s
  {
    assert before + s + after == before + (s + after);
    BlanksSkipped(before, s + after);
    BlanksDropped(s, after);
  }

  lemma TrimmedReadsTheSame(value: string, s: string)
    requires Trim(value) == Trim(s)
    ensures Readable(value) == Readable(s) && DurationToSeconds(value) == DurationToSeconds(s)
  {
  }

  lemma ReadsTrimmed(digits: string, blanks: string, unit: string)
    requires digits != "" && AllDigits(digits) && AllBlank(blanks)
    requires if unit == "" then blanks == "" else |unit| == 1 && Unit(unit[0])
    ensures var s := digits + blanks + unit;
            && !Blank(s[0]) && !Blank(s[|s| - 1]) && Trim(s) == s
            && Readable(s) && DurationToSeconds(s) == Decimal(digits) * if unit == "" then 1 else UnitSeconds(unit[0])
  {
    hide SkipBlanks, DropBlanks, DigitsIn, Decimal, Trim;
    var s := digits + blanks + unit;
    NotationParts(digits, blanks, unit);
    assert s == "" + s + "";
    Trimmed("", s, "");
  }

  /** Where the digits end, and what follows the blanks. */
  lemma NotationParts(digits: string, blanks: string, unit: string)
    requires AllDigits(digits) && AllBlank(blanks) && (unit == "" || !(Blank(unit[0]) || Digit(unit[0])))
    ensures var s := digits + blanks + unit;
            && DigitsIn(s) == |digits| && s[..|digits|] == digits && SkipBlanks(s[|digits|..]) == unit
  {
    hide SkipBlanks, DigitsIn;
    var s := digits + blanks + unit;
    assert s == digits + (blanks + unit);
    assert blanks + unit == "" || !Digit((blanks + unit)[0]);
    DigitsOf(digits, blanks + unit);
    assert s[|digits|..] == blanks + unit && s[..|digits|] == digits;
    BlanksSkipped(blanks, unit);
  }

  /**
   White space around it aside, digits, blanks and a unit read as that many units; without a unit, as seconds.
   unit is one letter or empty.
   */
  lemma ReadsSpelled(before: string, digits: string, blanks: string, unit: string, after: string)
    requires AllBlank(before) && digits != "" && AllDigits(digits) && AllBlank(blanks) && AllBlank(after)
    requires unit == "" || (|unit| == 1 && Unit(unit[0]))
    ensures var value := before + digits + blanks + unit + after;
            && Readable(value)
            && DurationToSeconds(value) == Decimal(digits) * if unit == "" then 1 else UnitSeconds(unit[0])
  {
    hide Trim, DurationToSeconds, Readable, Decimal;
    var gap := if unit == "" then "" else blanks;
    var tail := if unit == "" then blanks + after else after;
    var s := digits + gap + unit;
    assert before + digits + blanks + unit + after == before + s + tail;
    ReadsTrimmed(digits, gap, unit);
    Trimmed(before, s, tail);
    TrimmedReadsTheSame(before + s + tail, s);
  }

  /** Writing n units out and reading them back gives n units. */
  lemma ReadsBack(n: nat, unit: char)
    requires Unit(unit)
    ensures DurationToSeconds(Shown(n) + [unit]) == n * UnitSeconds(unit)
    ensures DurationToSeconds(Shown(n)) == n
  {
    hide DurationToSeconds, Readable, Decimal, Shown;
    DecimalOfShown(n);
    ReadsSpelled("", Shown(n), "", [unit], "");
    ReadsSpelled("", Shown(n), "", "", "");
    assert "" + Shown(n) + "" + [unit] + "" == Shown(n) + [unit] && "" + Shown(n) + "" + "" + "" == Shown(n);
  }

  /** A second, a minute, an hour and a day, in either case. */
  lemma UnitsRead(n: nat)
    ensures DurationToSeconds(Shown(n) + "s") == DurationToSeconds(Shown(n) + "S") == n
    ensures DurationToSeconds(Shown(n) + "m") == DurationToSeconds(Shown(n) + "M") == n * 60
    ensures DurationToSeconds(Shown(n) + "h") == DurationToSeconds(Shown(n) + "H") == n * 60 * 60
    ensures DurationToSeconds(Shown(n) + "d") == DurationToSeconds(Shown(n) + "D") == n * 24 * 60 * 60
  {
    hide DurationToSeconds, Shown;
    ReadsBack(n, 's');
    ReadsBack(n, 'S');
    ReadsBack(n, 'm');
    ReadsBack(n, 'M');
    ReadsBack(n, 'h');
    ReadsBack(n, 'H');
    ReadsBack(n, 'd');
    ReadsBack(n, 'D');
  }

  /**
   The lifetime given to the signer is read a second time for the family mark. Where the signer reads no more
   into it (a bare number it takes for milliseconds), the mark outlives the family exactly when the lifetime is in
   the notation read here.
   */
  lemma FamilyMarkIsRead(cfg: Config, value: string)
    requires cfg.familyTtl == DurationToSeconds(value) && cfg.refreshTtl > 0
    requires Readable(value) ==> cfg.refreshTtl <= DurationToSeconds(value)
    ensures RevocationOutlivesFamily(cfg) <==> Readable(value)
  {
    FamilyRevocationIff(cfg);
  }

  /** A lifetime of one week, which is another notation, leaves no mark that outlives the family. */
  lemma WeeksAreNotRead(cfg: Config)
    requires cfg.familyTtl == DurationToSeconds("1w") && cfg.refreshTtl == 604_800
    ensures cfg.familyTtl == 0 && !RevocationOutlivesFamily(cfg)
  {
    Trimmed("", "1w", "");
    assert "" + "1w" + "" == "1w" && "1w"[1..] == "w" && "w"[0] == 'w';
    assert DigitsIn("w") == 0 && DigitsIn("1w") == 1;
    assert SkipBlanks("w") == "w";
    FamilyRevocationIff(cfg);
  }
}
