/** Durations written as number and suffix pairs, summed in microseconds. */
module Durations {
  import opened Names
  import opened Numbers
  import opened Wrappers
  import opened Exec

  datatype DurationError = EmptyDuration | BadSyntax | MissingSuffix | UnknownUnit(unit: string) | Overflow

  /** Microseconds per unit. */
  function Multiplier(suffix: string): (r: Option<nat>)
    ensures r.Some? ==> r.value > 0
  {
    if suffix == "usec" || suffix == "us" then Some(1)
    else if suffix == "msec" || suffix == "ms" then Some(1_000)
    else if suffix == "seconds" || suffix == "sec" || suffix == "s" then Some(1_000_000)
    else if suffix == "minutes" || suffix == "min" then Some(60_000_000)
    else if suffix == "hours" || suffix == "h" then Some(3_600_000_000)
    else if suffix == "days" || suffix == "d" then Some(86_400_000_000)
    else None
  }

  predicate IsDigit(c: char)
  {
    '0' <= c <= '9'
  }

  predicate IsLetter(c: char)
  {
    'a' <= c <= 'z' || 'A' <= c <= 'Z'
  }

  ghost predicate AllAre(text: string, p: char -> bool)
  {
    forall i | 0 <= i < |text| :: p(text[i])
  }

  /** How many leading characters satisfy `p`. */
  function Leading(text: string, p: char -> bool): (n: nat)
    ensures n <= |text| && (forall i | 0 <= i < n :: p(text[i])) && (n < |text| ==> !p(text[n]))
  {
    if text == "" || !p(text[0]) then 0 else Leading(text[1..], p) + 1
  }

  function TrimStart(text: string): string
  {
    text[Leading(text, IsSpace)..]
  }

  function TrimEnd(text: string): string
  {
    if text != "" && IsSpace(text[|text| - 1]) then TrimEnd(text[..|text| - 1]) else text
  }

  function Value(digits: string): nat
    requires AllAre(digits, IsDigit)
  {
    if digits == "" then 0 else 10 * Value(digits[..|digits| - 1]) + (digits[|digits| - 1] - '0') as nat
  }

  /** A sum in an unsigned 64-bit word, or no sum. */
  function Plus(micros: nat, value: nat, multiplier: nat): Result<nat, DurationError>
  {
    if value > U64_MAX || value * multiplier > U64_MAX || micros + value * multiplier > U64_MAX then Err(Overflow)
    else Ok(micros + value * multiplier)
  }

  /** The digits, the suffix and the rest at the front of a text, or what is wrong with it. */
  function Front(rest: string): (r: Result<(string, string, string), DurationError>)
    ensures r.Ok? ==> AllAre(r.value.0, IsDigit) && |r.value.2| < |rest|
  {
    var n := Leading(rest, IsDigit);
    var after := rest[n..];
    var m := Leading(after, IsLetter);
    if n == 0 then Err(BadSyntax)
    else if m == 0 then Err(MissingSuffix)
    else Ok((rest[..n], after[..m], TrimStart(after[m..])))
  }

  function Sum(rest: string, micros: nat): Result<nat, DurationError>
    decreases |rest|
  {
    if rest == "" then Ok(micros)
    else
      match Front(rest)
      case Err(e) => Err(e)
      case Ok((digits, suffix, after)) =>
        match Multiplier(suffix)
        case None => Err(UnknownUnit(suffix))
        case Some(multiplier) =>
          match Plus(micros, Value(digits), multiplier)
          case Err(e) => Err(e)
          case Ok(more) => Sum(after, more)
  }

  function Parse(input: string): Result<nat, DurationError>
  {
    var text := TrimEnd(TrimStart(input));
    if text == "" then Err(EmptyDuration) else Sum(text, 0)
  }

  method DoParse(input: string) returns (r: Result<nat, DurationError>)
    ensures r == Parse(input)
  {
    var rest := TrimEnd(TrimStart(input));
    if rest == "" {
      return Err(EmptyDuration);
    }
    var micros := 0;
    while rest != ""
      invariant Parse(input) == Sum(rest, micros)
      decreases |rest|
    {
      var n := Leading(rest, IsDigit);
      if n == 0 {
        return Err(BadSyntax);
      }
      var digits := rest[..n];
      rest := rest[n..];
      var m := Leading(rest, IsLetter);
      if m == 0 {
        return Err(MissingSuffix);
      }
      var suffix := rest[..m];
      rest := TrimStart(rest[m..]);
      var multiplier := Multiplier(suffix);
      if multiplier.None? {
        return Err(UnknownUnit(suffix));
      }
      var more := Plus(micros, Value(digits), multiplier.value);
      if more.Err? {
        return Err(more.error);
      }
      micros := more.value;
    }
    return Ok(micros);
  }

  // ----- What a duration is -----

  /** A number, its unit, and the white space after it. */
  datatype Pair = Pair(digits: string, suffix: string, gap: string)
  {
    ghost predicate Proper()
    {
      digits != "" && AllAre(digits, IsDigit) && Multiplier(suffix).Some? && AllAre(gap, IsSpace)
    }

    ghost function Micros(): nat
      requires Proper()
    {
      Value(digits) * Multiplier(suffix).value
    }

    function Text(): string
    {
      digits + suffix + gap
    }
  }

  ghost predicate AllProper(pairs: seq<Pair>)
  {
    forall i | 0 <= i < |pairs| :: pairs[i].Proper()
  }

  function Written(pairs: seq<Pair>): string
  {
    if pairs == [] then "" else pairs[0].Text() + Written(pairs[1..])
  }

  ghost function Total(pairs: seq<Pair>): nat
    requires AllProper(pairs)
  {
    if pairs == [] then 0 else pairs[0].Micros() + Total(pairs[1..])
  }

  /** A non-empty run of proper pairs, with white space allowed around each pair but not within one. */
  ghost predicate Reads(input: string, lead: string, pairs: seq<Pair>)
  {
    pairs != [] && AllProper(pairs) && AllAre(lead, IsSpace) && input == lead + Written(pairs)
  }

  // ----- Following a reading -----

  lemma LeadingIs(a: string, b: string, p: char -> bool)
    requires AllAre(a, p) && (b != "" ==> !p(b[0]))
    ensures Leading(a + b, p) == |a|
  {
    var text := a + b;
    assert forall i | 0 <= i < |a| :: text[i] == a[i];
    assert b != "" ==> text[|a|] == b[0];
  }

  lemma KnownIsLetters(suffix: string)
    requires Multiplier(suffix).Some?
    ensures suffix != "" && AllAre(suffix, IsLetter)
  {
  }

  lemma KindsAreApart(c: char)
    ensures !(IsDigit(c) && IsLetter(c)) && !(IsDigit(c) && IsSpace(c)) && !(IsLetter(c) && IsSpace(c))
  {
  }

  lemma WrittenStarts(pairs: seq<Pair>)
    requires AllProper(pairs)
    ensures pairs == [] ==> Written(pairs) == ""
    ensures pairs != [] ==> Written(pairs) != "" && IsDigit(Written(pairs)[0])
  {
    if pairs != [] {
      assert Written(pairs)[0] == pairs[0].digits[0];
    }
  }

  lemma FrontParts(digits: string, suffix: string, gap: string, tail: string)
    requires digits != "" && AllAre(digits, IsDigit) && suffix != "" && AllAre(suffix, IsLetter) && AllAre(gap, IsSpace)
    requires tail != "" ==> IsDigit(tail[0])
    ensures Front(digits + (suffix + (gap + tail))) == Ok((digits, suffix, tail))
  {
    hide IsSpace, IsDigit, IsLetter;
    var last := gap + tail;
    var after := suffix + last;
    KindsAreApart(suffix[0]);
    if last != "" {
      KindsAreApart(last[0]);
    }
    if tail != "" {
      KindsAreApart(tail[0]);
    }
    LeadingIs(digits, after, IsDigit);
    LeadingIs(suffix, last, IsLetter);
    LeadingIs(gap, tail, IsSpace);
    Rejoined(digits, after);
    Rejoined(suffix, last);
    Rejoined(gap, tail);
  }

  lemma Rejoined(a: string, b: string)
    ensures (a + b)[..|a|] == a && (a + b)[|a|..] == b
  {
  }

  lemma FrontOfWritten(pairs: seq<Pair>)
    requires AllProper(pairs) && pairs != []
    ensures Front(Written(pairs)) == Ok((pairs[0].digits, pairs[0].suffix, Written(pairs[1..])))
  {
    hide Multiplier, Front;
    var p := pairs[0];
    var tail := Written(pairs[1..]);
    KnownIsLetters(p.suffix);
    WrittenStarts(pairs[1..]);
    FrontParts(p.digits, p.suffix, p.gap, tail);
    AppendInParts(p.suffix, p.gap, tail);
    AppendInParts(p.digits, p.suffix, p.gap + tail);
    AppendInParts(p.digits + p.suffix, p.gap, tail);
  }

  lemma {:induction false} SumFollowsPairs(pairs: seq<Pair>, micros: nat)
    requires AllProper(pairs) && micros <= U64_MAX
    ensures Sum(Written(pairs), micros) ==
            if micros + Total(pairs) <= U64_MAX then Ok(micros + Total(pairs)) else Err(Overflow)
    decreases |pairs|
  {
    hide Front, Multiplier, Written;
    WrittenStarts(pairs);
    if pairs != [] {
      FrontOfWritten(pairs);
      var p := pairs[0];
      var value, multiplier := Value(p.digits), Multiplier(p.suffix).value;
      Grows(value, multiplier);
      if Plus(micros, value, multiplier).Ok? {
        SumFollowsPairs(pairs[1..], micros + value * multiplier);
      }
    }
  }

  lemma Grows(value: nat, multiplier: nat)
    requires multiplier > 0
    ensures value <= value * multiplier
  {
  }

  // ----- White space around -----

  lemma {:induction false} TrimEndDrops(text: string, gap: string)
    requires AllAre(gap, IsSpace) && (text != "" ==> !IsSpace(text[|text| - 1]))
    ensures TrimEnd(text + gap) == text
    decreases |gap|
  {
    hide IsSpace;
    if gap == "" {
      assert text + gap == text;
    } else {
      var n := |gap| - 1;
      assert (text + gap)[..|text + gap| - 1] == text + gap[..n];
      TrimEndDrops(text, gap[..n]);
    }
  }

  /** The same pairs with nothing after the last. */
  function Closed(pairs: seq<Pair>): seq<Pair>
    requires pairs != []
  {
    pairs[..|pairs| - 1] + [pairs[|pairs| - 1].(gap := "")]
  }

  lemma {:induction false} WrittenJoins(a: seq<Pair>, b: seq<Pair>)
    ensures Written(a + b) == Written(a) + Written(b)
    decreases |a|
  {
    if a == [] {
      assert a + b == b;
    } else {
      assert (a + b)[1..] == a[1..] + b;
      WrittenJoins(a[1..], b);
      AppendInParts(a[0].Text(), Written(a[1..]), Written(b));
    }
  }

  lemma {:induction false} TotalJoins(a: seq<Pair>, b: seq<Pair>)
    requires AllProper(a) && AllProper(b)
    ensures AllProper(a + b) && Total(a + b) == Total(a) + Total(b)
    decreases |a|
  {
    if a == [] {
      assert a + b == b;
    } else {
      assert (a + b)[1..] == a[1..] + b;
      TotalJoins(a[1..], b);
    }
  }

  lemma WrittenOne(p: Pair)
    ensures Written([p]) == p.Text()
  {
    assert Written([p][1..]) == "";
    AppendNothing(p.Text());
  }

  lemma TotalOne(p: Pair)
    requires p.Proper()
    ensures Total([p]) == p.Micros()
  {
    assert Total([p][1..]) == 0;
  }

  /** Changing only what follows the last pair changes the text only there, and the sum not at all. */
  lemma LastGap(pairs: seq<Pair>, gap: string)
    requires pairs != [] && AllProper(pairs) && AllAre(gap, IsSpace)
    ensures var q := Closed(pairs)[..|pairs| - 1] + [pairs[|pairs| - 1].(gap := gap)];
            AllProper(q) && Written(q) == Written(Closed(pairs)) + gap && Total(q) == Total(pairs)
  {
    hide Multiplier, IsSpace, Written;
    var n := |pairs| - 1;
    var last := pairs[n];
    var head := pairs[..n];
    assert Closed(pairs)[..n] == head && pairs == head + [last];
    var bare, full := last.(gap := ""), last.(gap := gap);
    WrittenJoins(head, [bare]);
    WrittenJoins(head, [full]);
    WrittenOne(bare);
    WrittenOne(full);
    TotalJoins(head, [full]);
    TotalJoins(head, [last]);
    TotalOne(full);
    TotalOne(last);
    AppendNothing(last.digits + last.suffix);
    AppendInParts(Written(head), last.digits + last.suffix, gap);
  }

  lemma ClosedEnds(pairs: seq<Pair>)
    requires pairs != [] && AllProper(pairs)
    ensures var text := Written(Closed(pairs)); text != "" && !IsSpace(text[|text| - 1])
  {
    hide Multiplier, IsSpace, IsLetter, Written;
    var n := |pairs| - 1;
    var bare := pairs[n].(gap := "");
    WrittenJoins(pairs[..n], [bare]);
    WrittenOne(bare);
    KnownIsLetters(bare.suffix);
    KindsAreApart(bare.suffix[|bare.suffix| - 1]);
    AppendNothing(bare.digits + bare.suffix);
    var text := Written(Closed(pairs));
    assert text[|text| - 1] == bare.suffix[|bare.suffix| - 1];
  }

  /** A text that reads as pairs parses to exactly their sum, or overflows when that does not fit. */
  lemma ReadingDecides(input: string, lead: string, pairs: seq<Pair>)
    requires Reads(input, lead, pairs)
    ensures Parse(input) == if Total(pairs) <= U64_MAX then Ok(Total(pairs)) else Err(Overflow)
  {
    hide Multiplier, IsSpace, IsDigit, Sum, Written, Total;
    var n := |pairs| - 1;
    var gap := pairs[n].gap;
    LastGap(pairs, gap);
    LastGap(pairs, "");
    assert Closed(pairs)[..n] + [pairs[n].(gap := gap)] == pairs;
    assert Closed(pairs)[..n] + [pairs[n].(gap := "")] == Closed(pairs);
    ClosedEnds(pairs);
    WrittenStarts(pairs);
    KindsAreApart(Written(pairs)[0]);
    LeadingIs(lead, Written(pairs), IsSpace);
    assert TrimStart(input) == Written(pairs);
    TrimEndDrops(Written(Closed(pairs)), gap);
    SumFollowsPairs(Closed(pairs), 0);
  }

  // ----- Finding a reading -----

  lemma FrontReads(rest: string) returns (gap: string)
    requires Front(rest).Ok?
    ensures var (digits, suffix, after) := Front(rest).value;
            && digits != "" && AllAre(digits, IsDigit) && AllAre(gap, IsSpace)
            && rest == digits + suffix + gap + after
  {
    hide IsSpace, IsDigit, IsLetter;
    var (digits, suffix, after) := Front(rest).value;
    var tail := rest[|digits|..][|suffix|..];
    gap := tail[..Leading(tail, IsSpace)];
    Parted(rest, |digits|);
    Parted(rest[|digits|..], |suffix|);
    Parted(tail, |gap|);
    AppendInParts(digits, suffix, tail);
    AppendInParts(digits + suffix, gap, after);
  }

  lemma Parted(text: string, n: nat)
    requires n <= |text|
    ensures text == text[..n] + text[n..]
  {
  }

  /** Whatever the sum accepts was written as pairs. */
  lemma {:induction false} SumReads(rest: string, micros: nat) returns (pairs: seq<Pair>)
    requires Sum(rest, micros).Ok?
    ensures AllProper(pairs) && Written(pairs) == rest && (rest != "" ==> pairs != [])
    decreases |rest|
  {
    hide Multiplier, Front, Plus;
    if rest == "" {
      return [];
    }
    var (digits, suffix, after) := Front(rest).value;
    var gap := FrontReads(rest);
    var more := SumReads(after, Plus(micros, Value(digits), Multiplier(suffix).value).value);
    pairs := [Pair(digits, suffix, gap)] + more;
    assert pairs[1..] == more;
  }

  lemma {:induction false} TrimEndParts(text: string) returns (gap: string)
    ensures AllAre(gap, IsSpace) && text == TrimEnd(text) + gap
    ensures TrimEnd(text) != "" ==> !IsSpace(TrimEnd(text)[|TrimEnd(text)| - 1])
  {
    hide IsSpace;
    if text != "" && IsSpace(text[|text| - 1]) {
      var n := |text| - 1;
      var g := TrimEndParts(text[..n]);
      gap := g + [text[n]];
      assert text == text[..n] + [text[n]];
      AppendInParts(TrimEnd(text), g, [text[n]]);
    } else {
      gap := "";
      AppendNothing(text);
    }
  }

  ghost predicate IsDuration(input: string, total: nat)
  {
    exists lead, pairs :: Reads(input, lead, pairs) && Total(pairs) == total
  }

  /** Accepted exactly when it is a run of pairs whose sum fits, and then as that sum. */
  lemma DurationsAreExact(input: string, total: nat)
    ensures Parse(input) == Ok(total) <==> IsDuration(input, total) && total <= U64_MAX
  {
    hide Multiplier, IsSpace, Sum, Written, Total;
    if Parse(input) == Ok(total) {
      var lead, pairs := ParseReads(input);
      ReadingDecides(input, lead, pairs);
    }
    if IsDuration(input, total) {
      var lead, pairs :| Reads(input, lead, pairs) && Total(pairs) == total;
      ReadingDecides(input, lead, pairs);
    }
  }

  lemma ParseReads(input: string) returns (lead: string, pairs: seq<Pair>)
    requires Parse(input).Ok?
    ensures Reads(input, lead, pairs)
  {
    hide Multiplier, IsSpace, IsDigit, Sum, Written, Value;
    var k := Leading(input, IsSpace);
    lead := input[..k];
    var start := TrimStart(input);
    var gap := TrimEndParts(start);
    var bare := SumReads(TrimEnd(start), 0);
    LastGap(bare, gap);
    var n := |bare| - 1;
    pairs := Closed(bare)[..n] + [bare[n].(gap := gap)];
    ClosedIsBare(bare);
    assert input == lead + start;
  }

  lemma ClosedIsBare(pairs: seq<Pair>)
    requires AllProper(pairs) && pairs != []
    requires Written(pairs) != "" && !IsSpace(Written(pairs)[|Written(pairs)| - 1])
    ensures Closed(pairs) == pairs
  {
    hide Multiplier, IsSpace, Written, Total;
    var n := |pairs| - 1;
    var gap := pairs[n].gap;
    LastGap(pairs, gap);
    assert Closed(pairs)[..n] + [pairs[n].(gap := gap)] == pairs;
  }

  /** Two accepted texts written one after the other are accepted exactly when their sum fits, as that sum. */
  lemma DurationsAdd(a: string, b: string)
    requires Parse(a).Ok? && Parse(b).Ok?
    ensures var total := Parse(a).value + Parse(b).value;
            Parse(a + b) == if total <= U64_MAX then Ok(total) else Err(Overflow)
  {
    hide Multiplier, IsSpace, Sum, Written, Total, Parse;
    var la, pa := ParseReads(a);
    var lb, pb := ParseReads(b);
    ReadingDecides(a, la, pa);
    ReadingDecides(b, lb, pb);
    var n := |pa| - 1;
    var gap := pa[n].gap + lb;
    LastGap(pa, pa[n].gap);
    LastGap(pa, gap);
    var q := Closed(pa)[..n] + [pa[n].(gap := gap)];
    assert Closed(pa)[..n] + [pa[n].(gap := pa[n].gap)] == pa;
    WrittenJoins(q, pb);
    TotalJoins(q, pb);
    calc {
      a + b;
      la + (Written(Closed(pa)) + pa[n].gap) + (lb + Written(pb));
      la + ((Written(Closed(pa)) + gap) + Written(pb));
      la + Written(q + pb);
    }
    ReadingDecides(a + b, la, q + pb);
  }

  // ----- The units -----

  /** Each unit's names mean the same, and the units are as many of one another as they are in a day. */
  lemma UnitsAreInProportion()
    ensures Multiplier("us") == Some(1) == Multiplier("usec")
    ensures Multiplier("ms") == Some(1000 * Multiplier("us").value) == Multiplier("msec")
    ensures Multiplier("s") == Some(1000 * Multiplier("ms").value) == Multiplier("sec") == Multiplier("seconds")
    ensures Multiplier("min") == Some(60 * Multiplier("s").value) == Multiplier("minutes")
    ensures Multiplier("h") == Some(60 * Multiplier("min").value) == Multiplier("hours")
    ensures Multiplier("d") == Some(24 * Multiplier("h").value) == Multiplier("days")
  {
  }
}
