/** The constant tables of ww-config.js that carry meaning beyond
    presentation: the playback speed choices, the border style choices,
    the default transcript and the default new item. */
module ConfigTables {
  import opened Wrappers
  import opened Decimal
  import opened ItemLabel

  /** One entry of a `TextSelect` property's option list. */
  datatype SelectOption = SelectOption(value: string, display: string)

  const SpeedOptions: seq<SelectOption> := [
    SelectOption("0.5", "0.5x"),
    SelectOption("0.75", "0.75x"),
    SelectOption("1", "1x (Normal)"),
    SelectOption("1.25", "1.25x"),
    SelectOption("1.5", "1.5x"),
    SelectOption("2", "2x")
  ]

  const DefaultSpeed: string := "1"

  const BorderStyleOptions: seq<SelectOption> := [
    SelectOption("solid", "Solid"),
    SelectOption("dashed", "Dashed"),
    SelectOption("dotted", "Dotted"),
    SelectOption("double", "Double"),
    SelectOption("none", "None")
  ]

  const DefaultBorderStyle: string := "solid"

  const DefaultTranscript: seq<Option<Item>> := [
    Some(Item(Some(0), Some(3), Some("agent"), Some("Agent: Hello, how can I help you?"))),
    Some(Item(Some(3), Some(5), Some("customer"), Some("Customer: I need support with my account.")))
  ]

  /** The item the editor inserts when a transcript line is added. */
  const NewItem: Item := Item(Some(0), Some(5), Some("agent"), Some("New transcript line"))

  /** The `value` strings of an option list, in order. */
  function Values(options: seq<SelectOption>): (vs: seq<string>)
    ensures |vs| == |options|
    ensures forall i :: 0 <= i < |options| ==> vs[i] == options[i].value
  {
    if options == [] then [] else [options[0].value] + Values(options[1..])
  }

  predicate Distinct(vs: seq<string>) {
    forall i, j :: 0 <= i < j < |vs| ==> vs[i] != vs[j]
  }

  /** The number a decimal text such as `"0.75"` denotes: canonical whole
      digits, optionally followed by a point and at least one digit. */
  function ParseDecimal(s: string): Option<real> {
    var i := IndexOf(s, '.');
    var whole := s[..i];
    if !Canonical(whole) then None
    else if i == |s| then Some(DigitsValue(whole) as real)
    else
      var frac := s[i + 1..];
      if frac == [] || !AllDigits(frac) then None
      else Some(DigitsValue(whole) as real + FractionValue(frac))
  }

  /** The value of the digits after a decimal point. */
  function FractionValue(digits: string): real
    requires AllDigits(digits)
  {
    DigitsValue(digits) as real / Pow10(|digits|) as real
  }

  /** A whole number's rendering parses back to that number. */
  lemma ParseDecimalOfNatToString(n: nat)
    ensures ParseDecimal(NatToString(n)) == Some(n as real)
  {
    var s := NatToString(n);
    assert forall j :: 0 <= j < |s| ==> s[j] != '.' by {
      forall j | 0 <= j < |s|
        ensures s[j] != '.'
      {
        assert IsDigit(s[j]);
      }
    }
    assert IndexOf(s, '.') == |s|;
    assert s[..|s|] == s;
    DigitsValueOfNatToString(n);
  }

  /** A one-digit whole part, a point and a fraction. */
  lemma ParseDecimalOfFraction(c: char, frac: string)
    requires IsDigit(c) && frac != [] && AllDigits(frac)
    ensures ParseDecimal([c] + "." + frac) == Some(DigitValue(c) as real + FractionValue(frac))
  {
    var s := [c] + "." + frac;
    assert s[0] == c && s[1] == '.';
    assert IndexOf(s, '.') == 1;
    assert s[..1] == [c] && s[2..] == frac;
    assert Canonical([c]);
    assert DigitsValue([c]) == DigitValue(c) by {
      assert [c][..0] == [];
    }
  }

  /** The numbers an option list's values denote, in order. */
  function ParsedValues(options: seq<SelectOption>): (ps: seq<Option<real>>)
    ensures |ps| == |options|
    ensures forall i :: 0 <= i < |options| ==> ps[i] == ParseDecimal(options[i].value)
  {
    if options == [] then [] else [ParseDecimal(options[0].value)] + ParsedValues(options[1..])
  }

  /** `"0.5"` denotes one half. */
  lemma HalfSpeedText()
    ensures ParseDecimal("0.5") == Some(0.5)
  {
    ParseDecimalOfFraction('0', "5");
    assert ['0'] + "." + "5" == "0.5";
    assert DigitsValue("5") == 5;
    assert Pow10(1) == 10;
  }

  /** `"0.75"` denotes three quarters. */
  lemma ThreeQuarterSpeedText()
    ensures ParseDecimal("0.75") == Some(0.75)
  {
    ParseDecimalOfFraction('0', "75");
    assert ['0'] + "." + "75" == "0.75";
    assert DigitsValue("75") == 75;
    assert Pow10(2) == 100;
  }

  /** `"1.25"` denotes one and a quarter. */
  lemma OneAndQuarterSpeedText()
    ensures ParseDecimal("1.25") == Some(1.25)
  {
    ParseDecimalOfFraction('1', "25");
    assert ['1'] + "." + "25" == "1.25";
    assert DigitsValue("25") == 25;
    assert Pow10(2) == 100;
  }

  /** `"1.5"` denotes one and a half. */
  lemma OneAndHalfSpeedText()
    ensures ParseDecimal("1.5") == Some(1.5)
  {
    ParseDecimalOfFraction('1', "5");
    assert ['1'] + "." + "5" == "1.5";
    assert DigitsValue("5") == 5;
    assert Pow10(1) == 10;
  }

  /** `"1"` and `"2"` denote one and two. */
  lemma WholeSpeedTexts()
    ensures ParseDecimal("1") == Some(1.0)
    ensures ParseDecimal("2") == Some(2.0)
  {
    ParseDecimalOfNatToString(1);
    ParseDecimalOfNatToString(2);
    assert NatToString(1) == "1" && NatToString(2) == "2";
  }

  /** An option list denotes `ps` when each of its values denotes the
      number at the same position. */
  lemma ParsedValuesPointwise(options: seq<SelectOption>, ps: seq<Option<real>>)
    requires |ps| == |options|
    requires forall i :: 0 <= i < |options| ==> ParseDecimal(options[i].value) == ps[i]
    ensures ParsedValues(options) == ps
  {
  }

  /** The speed choices denote 0.5, 0.75, 1, 1.25, 1.5 and 2. */
  lemma SpeedValues()
    ensures ParsedValues(SpeedOptions) == [Some(0.5), Some(0.75), Some(1.0), Some(1.25), Some(1.5), Some(2.0)]
  {
    HalfSpeedText();
    ThreeQuarterSpeedText();
    OneAndQuarterSpeedText();
    OneAndHalfSpeedText();
    WholeSpeedTexts();
    ParsedValuesPointwise(SpeedOptions, [Some(0.5), Some(0.75), Some(1.0), Some(1.25), Some(1.5), Some(2.0)]);
  }

  /** Every entry denotes a number, and each is smaller than the next. */
  predicate StrictlyIncreasing(ps: seq<Option<real>>) {
    forall i, j :: 0 <= i < j < |ps| ==> ps[i].Some? && ps[j].Some? && ps[i].value < ps[j].value
  }

  /** 0.5, 0.75, 1, 1.25, 1.5 and 2 are in increasing order. The list comes
      in through `ps` rather than inline so that the solver does not expand
      the literal list and the parsed table together in one proof. */
  lemma SpeedNumbersIncrease(ps: seq<Option<real>>)
    requires ps == [Some(0.5), Some(0.75), Some(1.0), Some(1.25), Some(1.5), Some(2.0)]
    ensures StrictlyIncreasing(ps)
  {
  }

  /** The speed choices are listed from slowest to fastest. */
  lemma SpeedOrder()
    ensures StrictlyIncreasing(ParsedValues(SpeedOptions))
  {
    SpeedValues();
    SpeedNumbersIncrease(ParsedValues(SpeedOptions));
  }

  /** The speed choices are six distinct values, and the default is the
      choice that denotes speed 1. */
  lemma SpeedDefault()
    ensures Distinct(Values(SpeedOptions))
    ensures DefaultSpeed in Values(SpeedOptions)
    ensures ParseDecimal(DefaultSpeed) == Some(1.0)
  {
    WholeSpeedTexts();
  }

  /** The border style choices are five distinct names and the default is
      one of them. */
  lemma BorderStyleTable()
    ensures Distinct(Values(BorderStyleOptions))
    ensures DefaultBorderStyle in Values(BorderStyleOptions)
    ensures Values(BorderStyleOptions) == ["solid", "dashed", "dotted", "double", "none"]
  {
  }

  /** The first default line is labelled `0:00 - agent`. */
  lemma AgentLineLabel()
    ensures GetItemLabel(DefaultTranscript[0]) == "0:00 - agent"
  {
    LabelOfTimedItem(DefaultTranscript[0].value);
    ZeroClock();
  }

  /** The second default line is labelled `0:03 - customer`. */
  lemma CustomerLineLabel()
    ensures GetItemLabel(DefaultTranscript[1]) == "0:03 - customer"
  {
    LabelOfTimedItem(DefaultTranscript[1].value);
    ThreeSecondClock();
  }

  /** The default transcript is labelled `0:00 - agent` and
      `0:03 - customer`. */
  lemma DefaultTranscriptLabels()
    ensures GetItemLabel(DefaultTranscript[0]) == "0:00 - agent"
    ensures GetItemLabel(DefaultTranscript[1]) == "0:03 - customer"
  {
    AgentLineLabel();
    CustomerLineLabel();
  }

  /** Three seconds shows as `0:03`. */
  lemma ThreeSecondClock()
    ensures FormatClock(3) == "0:03"
  {
    assert NatToString(0) == "0" && NatToString(3) == "3";
    assert PadStart("3", 2, '0') == "03";
  }

  /** Item `b` starts where item `a` ends. */
  predicate Follows(a: Option<Item>, b: Option<Item>) {
    && a.Some? && b.Some?
    && a.value.time.Some? && a.value.duration.Some? && b.value.time.Some?
    && b.value.time.value == a.value.time.value + a.value.duration.value
  }

  /** Each transcript item starts where the previous one ends. */
  predicate Contiguous(transcript: seq<Option<Item>>) {
    forall i :: 0 <= i < |transcript| - 1 ==> Follows(transcript[i], transcript[i + 1])
  }

  /** The second line of the default transcript starts where the first
      ends. */
  lemma DefaultTranscriptContiguous()
    ensures Contiguous(DefaultTranscript)
  {
  }

  /** A newly added line is labelled `0:00 - agent`. */
  lemma NewItemLabel()
    ensures GetItemLabel(Some(NewItem)) == "0:00 - agent"
  {
    LabelOfTimedItem(NewItem);
    ZeroClock();
  }
}
