/** The editor's label for one transcript item, `"m:ss - Speaker"`
    (`getItemLabel` in ww-config.js), together with the parser that reads
    such a label back. */
module ItemLabel {
  import opened Wrappers
  import opened Decimal

  /** A transcript item. Each field may be absent; `time` and `duration`
      are whole seconds. */
  datatype Item = Item(time: Option<nat>, duration: Option<nat>, speaker: Option<string>, text: Option<string>)

  /** `String.prototype.padStart`: left-pads `s` with `fill` up to `width`
      characters, and leaves a string already that long untouched. */
  function PadStart(s: string, width: nat, fill: char): (r: string)
    ensures |r| == if |s| >= width then |s| else width
    ensures r[|r| - |s|..] == s
    ensures forall i :: 0 <= i < |r| - |s| ==> r[i] == fill
  {
    if |s| >= width then s else seq(width - |s|, _ => fill) + s
  }

  /** The `m:ss` clock for `t` seconds: whole minutes (never wrapped into
      hours), a colon, and the seconds within the minute as two digits. */
  function FormatClock(t: nat): (r: string)
    ensures |r| >= 4 && r[|r| - 3] == ':'
    ensures Canonical(r[..|r| - 3]) && DigitsValue(r[..|r| - 3]) == t / 60
    ensures AllDigits(r[|r| - 2..]) && DigitsValue(r[|r| - 2..]) == t % 60
  {
    var m := NatToString(t / 60);
    var s := PadStart(NatToString(t % 60), 2, '0');
    DigitsValueOfNatToString(t / 60);
    SecondsField(t % 60);
    ClockFields(m, s);
    m + ":" + s
  }

  /** Where the minutes and seconds sit in a clock. */
  lemma ClockFields(m: string, sec: string)
    requires Canonical(m) && |sec| == 2
    ensures var r := m + ":" + sec;
      |r| >= 4 && r[|r| - 3] == ':' && r[..|r| - 3] == m && r[|r| - 2..] == sec
  {
    var r := m + ":" + sec;
    assert r[..|r| - 3] == m;
    assert r[|r| - 2..] == sec;
  }

  /** The seconds field is two digits that denote the seconds. */
  lemma SecondsField(n: nat)
    requires n < 60
    ensures |PadStart(NatToString(n), 2, '0')| == 2
    ensures AllDigits(PadStart(NatToString(n), 2, '0'))
    ensures DigitsValue(PadStart(NatToString(n), 2, '0')) == n
  {
    var d := NatToString(n);
    DigitsValueOfNatToString(n);
    if |d| == 1 {
      assert PadStart(d, 2, '0') == "0" + d;
      DigitsValueLeadingZero(d);
    }
  }

  /** Reads an `m:ss` clock back into seconds. Only the shape `FormatClock`
      produces is accepted: canonical minutes, a colon, two digits below 60. */
  function ParseClock(s: string): Option<nat> {
    if |s| < 4 || s[|s| - 3] != ':' then None
    else
      var m := s[..|s| - 3];
      var sec := s[|s| - 2..];
      if Canonical(m) && AllDigits(sec) && DigitsValue(sec) < 60
      then Some(DigitsValue(m) * 60 + DigitsValue(sec))
      else None
  }

  /** The clock shown for an item: its `time` when truthy, else `"0:00"`,
      which is the clock of its start second either way. */
  function Timestamp(item: Option<Item>): (r: string)
    ensures r == FormatClock(StartSeconds(item))
  {
    ZeroClock();
    if item.Some? && item.value.time.Some? && item.value.time.value != 0
    then FormatClock(item.value.time.value)
    else "0:00"
  }

  /** The name shown for an item: its `speaker` when truthy, else `"Unknown"`. */
  function SpeakerName(item: Option<Item>): (r: string)
    ensures r != ""
  {
    if item.Some? && item.value.speaker.Some? && item.value.speaker.value != ""
    then item.value.speaker.value
    else "Unknown"
  }

  /** The seconds an item starts at, an absent time counting as 0. */
  function StartSeconds(item: Option<Item>): nat {
    if item.Some? then item.value.time.GetOr(0) else 0
  }

  /** `getItemLabel(item)`. The label reads back as the item's start time
      and speaker name, the speaker appears verbatim at its end, and a
      falsy time or speaker shows as `0:00` or `Unknown`. */
  function GetItemLabel(item: Option<Item>): (r: string)
    ensures ParseLabel(r) == Some((StartSeconds(item), SpeakerName(item)))
    ensures EndsWith(r, SpeakerName(item))
    ensures StartSeconds(item) == 0 ==> "0:00 - " <= r
    ensures (item.None? || item.value.speaker.GetOr("") == "") ==> EndsWith(r, "Unknown")
  {
    var c := Timestamp(item);
    var name := SpeakerName(item);
    ZeroClock();
    LabelRoundTrip(StartSeconds(item), name);
    LabelEnds(c, name);
    c + " - " + name
  }

  /** `s` ends with `suffix`. */
  predicate EndsWith(s: string, suffix: string) {
    |suffix| <= |s| && s[|s| - |suffix|..] == suffix
  }

  /** Where the clock and the name sit in a label. */
  lemma LabelEnds(c: string, name: string)
    ensures var r := c + " - " + name;
      && EndsWith(r, name)
      && (c == "0:00" ==> "0:00 - " <= r)
  {
    var r := c + " - " + name;
    assert r[|r| - |name|..] == name;
  }

  /** Splits a label at its first `" - "` into start seconds and speaker
      name; `None` when the text before it is not a clock. */
  function ParseLabel(s: string): Option<(nat, string)> {
    var i := IndexOf(s, ' ');
    if i + 3 <= |s| && s[i..i + 3] == " - " then
      match ParseClock(s[..i])
      case Some(t) => Some((t, s[i + 3..]))
      case None => None
    else None
  }

  /** The falsy branch's `"0:00"` is exactly what the formula gives for 0. */
  lemma ZeroClock()
    ensures FormatClock(0) == "0:00"
  {
    assert NatToString(0) == "0";
  }

  /** Every clock reads back as the seconds it was made from. */
  lemma ClockRoundTrip(t: nat)
    ensures ParseClock(FormatClock(t)) == Some(t)
  {
  }

  /** Every string the clock parser accepts is the clock of what it reads. */
  lemma ClockParseInverse(s: string, t: nat)
    requires ParseClock(s) == Some(t)
    ensures FormatClock(t) == s
  {
    var m := s[..|s| - 3];
    var sec := s[|s| - 2..];
    var vm := DigitsValue(m);
    var vs := DigitsValue(sec);
    assert t / 60 == vm && t % 60 == vs;
    NatToStringOfDigitsValue(m);
    if sec[0] == '0' {
      var d := sec[1..];
      assert sec == "0" + d;
      DigitsValueLeadingZero(d);
      assert NatToString(vs) == [DigitChar(DigitValue(sec[1]))] == d;
    } else {
      NatToStringOfDigitsValue(sec);
    }
    assert s == m + ":" + sec;
  }

  /** Different start times never share a clock. */
  lemma ClockInjective(a: nat, b: nat)
    ensures a != b ==> FormatClock(a) != FormatClock(b)
  {
    ClockRoundTrip(a);
    ClockRoundTrip(b);
  }

  /** A clock holds no space. */
  lemma ClockHasNoSpace(t: nat)
    ensures forall j :: 0 <= j < |FormatClock(t)| ==> FormatClock(t)[j] != ' '
  {
    DigitsColonDigitsHasNoSpace(FormatClock(t));
  }

  /** Digits, a colon and two digits hold no space. */
  lemma DigitsColonDigitsHasNoSpace(c: string)
    requires |c| >= 4 && c[|c| - 3] == ':'
    requires AllDigits(c[..|c| - 3]) && AllDigits(c[|c| - 2..])
    ensures forall j :: 0 <= j < |c| ==> c[j] != ' '
  {
    forall j | 0 <= j < |c|
      ensures c[j] != ' '
    {
      if j < |c| - 3 {
        assert c[j] == c[..|c| - 3][j];
      } else if j > |c| - 3 {
        assert c[j] == c[|c| - 2..][j - (|c| - 2)];
      }
    }
  }

  /** The label of a clock and a speaker name splits back into both,
      whatever the name contains. */
  lemma LabelRoundTrip(t: nat, name: string)
    ensures ParseLabel(FormatClock(t) + " - " + name) == Some((t, name))
  {
    var c := FormatClock(t);
    var s := c + " - " + name;
    ClockHasNoSpace(t);
    IndexOfAfter(c, " - " + name, ' ');
    assert s == c + (" - " + name);
    var i := IndexOf(s, ' ');
    assert i == |c|;
    assert s[..i] == c && s[i..i + 3] == " - " && s[i + 3..] == name;
    ClockRoundTrip(t);
  }

  /** An accepted label is a clock, `" - "`, and the name. */
  lemma ParseLabelSplit(s: string, t: nat, name: string)
    requires ParseLabel(s) == Some((t, name))
    ensures var c := s[..|s| - |name| - 3];
      ParseClock(c) == Some(t) && s == c + " - " + name
  {
    var i := IndexOf(s, ' ');
    assert i + 3 <= |s| && s[i..i + 3] == " - ";
    assert ParseClock(s[..i]) == Some(t) && s[i + 3..] == name;
    assert s == s[..i] + " - " + s[i + 3..];
  }

  /** The label of an item with a time and a non-empty speaker. */
  lemma LabelOfTimedItem(item: Item)
    requires item.time.Some? && item.speaker.Some? && item.speaker.value != ""
    ensures GetItemLabel(Some(item)) == FormatClock(item.time.value) + " - " + item.speaker.value
  {
  }

  /** Every item, present or null, with or without a time, is labelled with
      the formula's clock of its start second, `" - "` and the shown name. */
  lemma LabelShape(item: Option<Item>)
    ensures GetItemLabel(item) == FormatClock(StartSeconds(item)) + " - " + SpeakerName(item)
  {
    var r := GetItemLabel(item);
    ParseLabelSplit(r, StartSeconds(item), SpeakerName(item));
    ClockParseInverse(r[..|r| - |SpeakerName(item)| - 3], StartSeconds(item));
  }

  /** Every label the parser accepts with a non-empty name is the label of
      an item that starts at that time and has that speaker. */
  lemma LabelParseInverse(s: string, t: nat, name: string)
    requires ParseLabel(s) == Some((t, name))
    requires name != ""
    ensures GetItemLabel(Some(Item(Some(t), None, Some(name), None))) == s
  {
    ParseLabelSplit(s, t, name);
    ClockParseInverse(s[..|s| - |name| - 3], t);
    LabelOfTimedItem(Item(Some(t), None, Some(name), None));
  }

  /** Two labels are equal exactly when the items start at the same
      second and show the same speaker name. */
  lemma LabelInjective(x: Option<Item>, y: Option<Item>)
    ensures GetItemLabel(x) == GetItemLabel(y)
        <==> StartSeconds(x) == StartSeconds(y) && SpeakerName(x) == SpeakerName(y)
  {
    if StartSeconds(x) == StartSeconds(y) && SpeakerName(x) == SpeakerName(y) {
      ZeroClock();
    }
  }

  /** Minutes are not wrapped into hours: 3725 seconds is 62 minutes 5 seconds. */
  lemma NoHourWrap()
    ensures FormatClock(3725) == "62:05"
  {
    assert 3725 / 60 == 62 && 3725 % 60 == 5;
    assert NatToString(62) == NatToString(6) + [DigitChar(2)];
    assert NatToString(62) == "62";
    assert PadStart(NatToString(5), 2, '0') == "05";
  }

  /** A missing item shows the default clock and speaker. */
  lemma NullItemLabel()
    ensures GetItemLabel(None) == "0:00 - Unknown"
  {
  }
}
