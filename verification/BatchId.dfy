/** How batch ids are printed and parsed, and why no printed one can be read back. */
module BatchIds {
  import opened Wrappers
  import opened Intervals

  const U64_LIMIT: nat := 0x1_0000_0000_0000_0000

  // ----- decimal numerals -----

  predicate AllDigits(s: string) {
    forall i | 0 <= i < |s| :: '0' <= s[i] <= '9'
  }

  function Decimal(n: nat): (s: string)
    ensures s != [] && AllDigits(s)
  {
    var digit := (n % 10 + '0' as int) as char;
    if n < 10 then [digit] else Decimal(n / 10) + [digit]
  }

  function ValueOf(s: string): nat
    requires AllDigits(s)
  {
    if s == [] then 0
    else
      var n := |s| - 1;
      ValueOf(s[..n]) * 10 + (s[n] as int - '0' as int)
  }

  /** `u64::from_str`: an optional plus sign and at least one digit, within sixty-four bits. */
  function ParseU64(s: string): Option<nat> {
    var digits := if s != [] && s[0] == '+' then s[1..] else s;
    if digits == [] || !AllDigits(digits) || ValueOf(digits) >= U64_LIMIT then None
    else Some(ValueOf(digits))
  }

  lemma {:induction false} DecimalRoundTrip(n: nat)
    ensures ValueOf(Decimal(n)) == n
  {
    if n >= 10 {
      DecimalRoundTrip(n / 10);
      assert Decimal(n)[..|Decimal(n)| - 1] == Decimal(n / 10);
    } else {
      assert Decimal(n)[..0] == [];
    }
  }

  lemma ParsesDecimal(n: nat)
    requires n < U64_LIMIT
    ensures ParseU64(Decimal(n)) == Some(n)
  {
    DecimalRoundTrip(n);
    assert Decimal(n)[0] != '+';
  }

  // ----- searching -----

  /** The first place where `c` stands. */
  function Find(s: string, c: char): Option<nat> {
    if s == [] then None
    else if s[0] == c then Some(0)
    else
      match Find(s[1..], c)
      case None => None
      case Some(i) => Some(i + 1)
  }

  lemma {:induction false} FindMeaning(s: string, c: char, i: nat)
    ensures Find(s, c) == Some(i) <==> i < |s| && s[i] == c && c !in s[..i]
    ensures Find(s, c).None? <==> c !in s
  {
    if s != [] {
      if i > 0 {
        FindMeaning(s[1..], c, i - 1);
        assert i < |s| ==> s[..i] == [s[0]] + s[1..][..i - 1];
      } else {
        FindMeaning(s[1..], c, 0);
      }
      assert s == [s[0]] + s[1..];
    }
  }

  function TrimStart(s: string, c: char): string {
    if s != [] && s[0] == c then TrimStart(s[1..], c) else s
  }

  // ----- printing and parsing -----

  /** A single point prints as a number, anything longer in brackets. */
  function PrintInterval(a: ClosedInterval): string
    requires 0 <= a.start && 0 <= a.end
  {
    if a.start == a.end then Decimal(a.start) else Bracketed(a, " ")
  }

  function Print(id: ClosedInterval): string
    requires 0 <= id.start && 0 <= id.end
  {
    "B" + PrintInterval(id)
  }

  /** The two ends in brackets, `gap` after the comma. */
  function Bracketed(a: ClosedInterval, gap: string): string
    requires 0 <= a.start && 0 <= a.end
  {
    "[" + Decimal(a.start) + "," + gap + Decimal(a.end) + "]"
  }

  /** Slicing with the bounds the wrong way round aborts. */
  datatype Parsed = Id(id: ClosedInterval) | Error(message: string) | Aborted

  function Parse(s: string): Parsed {
    ParseTrimmed(TrimStart(s, 'B'))
  }

  function ParseTrimmed(t: string): Parsed {
    match (Find(t, '['), Find(t, ','), Find(t, ']'))
    case (None, _, _) => Error("Missing '[' in input")
    case (Some(_), None, _) => Error("Missing ',' in input")
    case (Some(_), Some(_), None) => Error("Missing ']' in input")
    case (Some(startBracket), Some(comma), Some(endBracket)) =>
      FindMeaning(t, ',', comma);
      FindMeaning(t, ']', endBracket);
      if startBracket + 1 > comma then Aborted
      else
        match ParseU64(t[startBracket + 1..comma])
        case None => Error("Failed to parse start value")
        case Some(start) =>
          if comma + 1 > endBracket then Aborted
          else
            match ParseU64(t[comma + 1..endBracket])
            case None => Error("Failed to parse end value")
            case Some(end) => Id(ClosedInterval(start, end))
  }

  predicate IsU64(id: ClosedInterval) {
    0 <= id.start < U64_LIMIT && 0 <= id.end < U64_LIMIT
  }

  predicate OnlySpaces(gap: string) {
    forall i | 0 <= i < |gap| :: gap[i] == ' '
  }

  lemma BracketedParts(a: ClosedInterval, gap: string)
    requires IsU64(a) && OnlySpaces(gap)
    ensures var t, k := Bracketed(a, gap), |Decimal(a.start)|;
            && Find(t, '[') == Some(0) && Find(t, ',') == Some(k + 1) && Find(t, ']') == Some(|t| - 1)
            && t[1..k + 1] == Decimal(a.start)
            && t[k + 2..|t| - 1] == gap + Decimal(a.end)
  {
    var t, k := Bracketed(a, gap), |Decimal(a.start)|;
    CommaStands(a, gap);
    assert t[..|t| - 1] == "[" + Decimal(a.start) + "," + gap + Decimal(a.end);
    FindMeaning(t, '[', 0);
    FindMeaning(t, ']', |t| - 1);
  }

  lemma CommaStands(a: ClosedInterval, gap: string)
    requires IsU64(a)
    ensures Find(Bracketed(a, gap), ',') == Some(|Decimal(a.start)| + 1)
  {
    var t, k := Bracketed(a, gap), |Decimal(a.start)|;
    assert t[..k + 1] == "[" + Decimal(a.start);
    FindMeaning(t, ',', k + 1);
  }

  /** A bracketed id is read back exactly when nothing stands between the comma and the end. */
  lemma ReadsBackIffNoGap(id: ClosedInterval, gap: string)
    requires IsU64(id) && OnlySpaces(gap)
    ensures Parse("B" + Bracketed(id, gap)) == if gap == "" then Id(id) else Error("Failed to parse end value")
  {
    var t := Bracketed(id, gap);
    assert ("B" + t)[1..] == t && t[0] == '[';
    assert TrimStart("B" + t, 'B') == t;
    BracketedParts(id, gap);
    ParsesDecimal(id.start);
    if gap == "" {
      assert gap + Decimal(id.end) == Decimal(id.end);
      ParsesDecimal(id.end);
    } else {
      assert (gap + Decimal(id.end))[0] == ' ';
    }
  }

  /**
  Printing puts a space after the comma, and a single point in no brackets at all; so no batch id,
  once printed, can be parsed again.
  */
  lemma PrintedNeverParses(id: ClosedInterval)
    requires IsU64(id)
    ensures Parse(Print(id))
            == Error(if id.start == id.end then "Missing '[' in input" else "Failed to parse end value")
  {
    if id.start == id.end {
      var t := Decimal(id.start);
      assert ("B" + t)[1..] == t && t[0] != 'B';
      assert TrimStart("B" + t, 'B') == t;
      FindMeaning(t, '[', 0);
    } else {
      ReadsBackIffNoGap(id, " ");
    }
  }

  /** For instance a range and a point. */
  lemma PrintedRangeAndPoint()
    ensures Print(ClosedInterval(3, 17)) == "B[3, 17]" && Print(ClosedInterval(4, 4)) == "B4"
  {
    assert Decimal(17) == Decimal(1) + "7";
  }

  /** The first of the three marks that is missing is what the error names; a comma before the bracket aborts. */
  lemma ParseMisses(t: string)
    requires t != [] && t[0] != 'B'
    ensures '[' !in t ==> Parse(t) == Error("Missing '[' in input")
    ensures '[' in t && ',' !in t ==> Parse(t) == Error("Missing ',' in input")
    ensures '[' in t && ',' in t && ']' !in t ==> Parse(t) == Error("Missing ']' in input")
    ensures '[' in t && ',' in t && ']' in t && (exists i :: 0 <= i < |t| && t[i] == ',' && '[' !in t[..i]) ==>
              Parse(t) == Aborted
  {
    FindMeaning(t, '[', 0);
    FindMeaning(t, ',', 0);
    FindMeaning(t, ']', 0);
    if '[' in t && ',' in t && ']' in t && exists i :: 0 <= i < |t| && t[i] == ',' && '[' !in t[..i] {
      var i :| 0 <= i < |t| && t[i] == ',' && '[' !in t[..i];
      var bracket, comma := Find(t, '[').value, Find(t, ',').value;
      FindMeaning(t, '[', bracket);
      FindMeaning(t, ',', comma);
    }
  }
}
