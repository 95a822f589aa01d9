/** Schedules as text: what is accepted, and what is printed back. */
module CalendarTexts {
  import opened Names
  import opened Wrappers
  import opened Calendars
  import opened Durations

  /** The parts of a text between colons. */
  function Fields(text: string): (r: seq<string>)
    ensures r != []
  {
    var n := Leading(text, c => c != ':');
    if n == |text| then [text] else [text[..n]] + Fields(text[n + 1..])
  }

  function Joined(fields: seq<string>): string
    requires fields != []
  {
    if |fields| == 1 then fields[0] else fields[0] + ":" + Joined(fields[1..])
  }

  /** A number as the standard library reads one: digits, with a plus sign allowed before them. */
  function Number(part: string, max: nat): Option<nat>
  {
    var digits := if "+" <= part then part[1..] else part;
    if digits == "" || Leading(digits, IsDigit) < |digits| then None
    else if Value(digits) > max then None
    else Some(Value(digits))
  }

  function Parse(text: string): Result<Calendar, string>
  {
    if text == "hourly" then Ok(Hourly)
    else if text == "daily" then Ok(Daily)
    else if text == "weekly" then Ok(Weekly)
    else
      var parts := Fields(text);
      var hour := Number(parts[0], 23);
      var minute := if |parts| < 2 then None else Number(parts[1], 59);
      var second := if |parts| < 3 then Some(0) else Number(parts[2], 59);
      if hour.None? || minute.None? || second.None? || |parts| > 3 then Err(text)
      else Ok(At(hour.value, minute.value, second.value))
  }

  /** At least two digits. */
  function Two(n: nat): (s: string)
    requires n < 100
    ensures |s| == 2 && IsDigit(s[0]) && IsDigit(s[1])
  {
    ['0' + (n / 10) as char, '0' + (n % 10) as char]
  }

  function Display(c: Calendar): string
    requires InRange(c)
  {
    match c
    case Hourly => "hourly"
    case Daily => "daily"
    case Weekly => "weekly"
    case At(hour, minute, second) => Two(hour) + ":" + Two(minute) + ":" + Two(second)
  }

  lemma {:induction false} JoinedFields(text: string)
    ensures Joined(Fields(text)) == text
    ensures forall f | f in Fields(text) :: ':' !in f
    decreases |text|
  {
    var n := Leading(text, c => c != ':');
    if n < |text| {
      JoinedFields(text[n + 1..]);
      assert Fields(text)[1..] == Fields(text[n + 1..]);
      assert text == text[..n] + ":" + text[n + 1..];
    }
  }

  lemma {:induction false} FieldsOfJoined(fields: seq<string>)
    requires fields != [] && forall i | 0 <= i < |fields| :: ':' !in fields[i]
    ensures Fields(Joined(fields)) == fields
    decreases |fields|
  {
    var first := fields[0];
    var text := Joined(fields);
    if |fields| == 1 {
      LeadingIs(first, "", c => c != ':');
      AppendNothing(first);
    } else {
      var rest := Joined(fields[1..]);
      FieldsOfJoined(fields[1..]);
      LeadingIs(first, ":" + rest, c => c != ':');
      AppendInParts(first, ":", rest);
      assert text[..|first|] == first && text[|first| + 1..] == rest;
      assert fields == [first] + fields[1..];
    }
  }

  /** `text` is `fields` between colons, two or three of them, each a number in range; an absent second is zero. */
  ghost predicate Says(text: string, fields: seq<string>, hour: nat, minute: nat, second: nat)
  {
    && 2 <= |fields| <= 3 && text == Joined(fields)
    && (forall i | 0 <= i < |fields| :: ':' !in fields[i])
    && Number(fields[0], 23) == Some(hour) && Number(fields[1], 59) == Some(minute)
    && second == (if |fields| == 3 && Number(fields[2], 59).Some? then Number(fields[2], 59).value else 0)
    && (|fields| == 3 ==> Number(fields[2], 59).Some?)
  }

  lemma NamedHaveNoColon(text: string)
    requires text == "hourly" || text == "daily" || text == "weekly"
    ensures ':' !in text
  {
  }

  lemma {:induction false} JoinedHasColon(fields: seq<string>)
    requires |fields| >= 2
    ensures ':' in Joined(fields)
  {
    assert Joined(fields)[|fields[0]|] == ':';
  }

  /**
   * A time of day is accepted exactly when the text is its two or three numbers between colons, and then as that
   * time.
   */
  lemma TimesAreExact(text: string, hour: nat, minute: nat, second: nat)
    ensures Parse(text) == Ok(At(hour, minute, second)) <==> exists fields :: Says(text, fields, hour, minute, second)
  {
    hide Number, Fields, Joined;
    if Parse(text) == Ok(At(hour, minute, second)) {
      JoinedFields(text);
      FieldsHaveNoColon(text);
      assert Says(text, Fields(text), hour, minute, second);
    }
    if fields :| Says(text, fields, hour, minute, second) {
      FieldsOfJoined(fields);
      JoinedHasColon(fields);
      if text == "hourly" || text == "daily" || text == "weekly" {
        NamedHaveNoColon(text);
      }
    }
  }

  lemma FieldsHaveNoColon(text: string)
    ensures forall i | 0 <= i < |Fields(text)| :: ':' !in Fields(text)[i]
  {
    JoinedFields(text);
    forall i | 0 <= i < |Fields(text)| ensures ':' !in Fields(text)[i] {
      assert Fields(text)[i] in Fields(text);
    }
  }

  /** Nothing out of range is accepted. */
  lemma AcceptedIsInRange(text: string)
    requires Parse(text).Ok?
    ensures InRange(Parse(text).value)
  {
  }

  lemma TwoReads(n: nat, max: nat)
    requires n <= max < 100
    ensures Number(Two(n), max) == Some(n) && ':' !in Two(n)
  {
    var s := Two(n);
    LeadingIs(s, "", IsDigit);
    AppendNothing(s);
    assert s[..1] == [s[0]] && s[..1][..0] == "";
    assert Value(s[..1]) == n / 10;
    assert !("+" <= s);
  }

  /** Every schedule prints as text that parses back to it. */
  lemma PrintingRoundTrips(c: Calendar)
    requires InRange(c)
    ensures Parse(Display(c)) == Ok(c)
  {
    hide Number, Fields, Joined;
    if c.At? {
      var fields := [Two(c.hour), Two(c.minute), Two(c.second)];
      TwoReads(c.hour, 23);
      TwoReads(c.minute, 59);
      TwoReads(c.second, 59);
      JoinedThree(Two(c.hour), Two(c.minute), Two(c.second));
      assert Says(Display(c), fields, c.hour, c.minute, c.second);
      TimesAreExact(Display(c), c.hour, c.minute, c.second);
    }
  }

  lemma JoinedThree(a: string, b: string, c: string)
    ensures Joined([a, b, c]) == a + ":" + b + ":" + c
  {
    assert [a, b, c][1..] == [b, c] && [b, c][1..] == [c];
    assert Joined([b, c]) == b + ":" + c;
    assert a + ":" + (b + ":" + c) == a + ":" + b + ":" + c;
  }
}
