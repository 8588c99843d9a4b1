/** Time-window arguments and command-line validation
    (services/args_parser.py). A window is written
    `[<tag>__]...&from=<digits>...&to=<digits>...`; the tag is what precedes
    the first `__`, the instants are the first digit runs after `&from=` and
    `&to=`, and windows are numbered 0, 1, ... in argument order. */
module TimeArgs {
  import opened Wrappers
  import opened Text

  /** One reporting window (GrafanaTimeDownloader / GrafanaTimeUploader). */
  datatype Timestamp = Timestamp(
    tag: Option<string>,
    id: int,
    start: int,
    end: int,
    startHuman: string,
    endHuman: string)

  /** The time-zone conversion and `strftime` formatting, left abstract:
      `None` stands for a zone name pytz does not know. */
  type Zone = Option<real -> string>

  // ---------------------------------------------------------------------------
  // Tag

  /** `time_tag`: the text before the first `__`; None when there is no `__`
      (and '' when the string starts with `__`). */
  function TimeTag(s: string): (r: Option<string>)
    ensures r.None? <==> !Contains(s, "__")
    ensures r.Some? ==> StartsWith(s, r.value + "__")
    ensures r.Some? ==> forall j | 0 <= j < |r.value| :: !OccursAt(s, "__", j)
  {
    var head := HeadBefore(s, "__");
    if head == s then None else Some(head)
  }

  // ---------------------------------------------------------------------------
  // `re.findall(marker + r'(\d+)', s)[0]`

  /** Length of the maximal run of ASCII digits in `s` starting at `i`. */
  function DigitRun(s: string, i: nat): (n: nat)
    requires i <= |s|
    ensures i + n <= |s|
    ensures forall k | i <= k < i + n :: IsDigit(s[k])
    ensures i + n == |s| || !IsDigit(s[i + n])
    decreases |s| - i
  {
    if i < |s| && IsDigit(s[i]) then 1 + DigitRun(s, i + 1) else 0
  }

  /** The maximal digit run is determined by where the digits stop. */
  lemma DigitRunIs(s: string, i: nat, n: nat)
    requires i + n <= |s|
    requires forall k | i <= k < i + n :: IsDigit(s[k])
    requires i + n == |s| || !IsDigit(s[i + n])
    ensures DigitRun(s, i) == n
  {
  }

  /** The regular expression `marker\d+` matches at `i`. */
  predicate MarkedAt(s: string, marker: string, i: nat) {
    OccursAt(s, marker, i) && i + |marker| < |s| && IsDigit(s[i + |marker|])
  }

  /** The leftmost match of `marker\d+` at or after `from`. */
  function FirstMarked(s: string, marker: string, from: nat): (r: Option<nat>)
    decreases |s| - from
    ensures r.Some? ==> from <= r.value && MarkedAt(s, marker, r.value)
    ensures r.Some? ==> forall j | from <= j < r.value :: !MarkedAt(s, marker, j)
    ensures r.None? ==> forall j | from <= j :: !MarkedAt(s, marker, j)
  {
    if from + |marker| >= |s| then None
    else if MarkedAt(s, marker, from) then Some(from)
    else FirstMarked(s, marker, from + 1)
  }

  /** The digits captured by the leftmost match of `marker\d+`, as an int;
      None where Python's `[0]` raises IndexError. */
  function MarkedNumber(s: string, marker: string): Option<nat> {
    match FirstMarked(s, marker, 0)
    case None => None
    case Some(i) => Some(NumberAt(s, i + |marker|))
  }

  /** The value of the maximal digit run starting at `d`. */
  function NumberAt(s: string, d: nat): nat
    requires d <= |s|
  {
    var n := DigitRun(s, d);
    assert AllDigits(s[d..d + n]);
    DigitsValue(s[d..d + n])
  }

  // ---------------------------------------------------------------------------
  // Parsing one window

  /** The instant the human-readable strings are computed from: a value with
      more than ten decimal digits is read as milliseconds. */
  function HumanSeconds(v: nat): (r: real)
    ensures v >= 10000000000 ==> r == v as real / 1000.0
    ensures v < 10000000000 ==> r == v as real
  {
    NatToStringLength(v, 10);
    assert Pow10(10) == 10000000000;
    if |NatToString(v)| > 10 then v as real / 1000.0 else v as real
  }

  /** GrafanaTimeDownloader: the tag, then the zone lookup, then `&from=`,
      then `&to=`; the stored instants are the raw values. */
  function ParseTimestamp(s: string, id: nat, zoneName: string, zone: Zone): (r: Result<Timestamp>)
    ensures zone.None? ==> r == Failure(UnknownTimeZoneError(zoneName))
    ensures zone.Some? && MarkedNumber(s, "&from=").None? ==> r == Failure(IndexError("&from="))
    ensures zone.Some? && MarkedNumber(s, "&from=").Some? && MarkedNumber(s, "&to=").None? ==>
              r == Failure(IndexError("&to="))
    ensures r.Success? ==> r.value.id == id && r.value.tag == TimeTag(s)
    ensures r.Success? ==>
              Some(r.value.start) == MarkedNumber(s, "&from=") && Some(r.value.end) == MarkedNumber(s, "&to=")
    ensures r.Success? ==>
              && r.value.startHuman == zone.value(HumanSeconds(r.value.start))
              && r.value.endHuman == zone.value(HumanSeconds(r.value.end))
  {
    var tag := TimeTag(s);
    match zone
    case None => Failure(UnknownTimeZoneError(zoneName))
    case Some(format) =>
      match MarkedNumber(s, "&from=")
      case None => Failure(IndexError("&from="))
      case Some(start) =>
        match MarkedNumber(s, "&to=")
        case None => Failure(IndexError("&to="))
        case Some(end) =>
          Success(Timestamp(tag, id, start, end, format(HumanSeconds(start)), format(HumanSeconds(end))))
  }

  /** A window written the documented way. */
  function FormatWindow(tag: Option<string>, from: nat, to: nat): string {
    (if tag.Some? then tag.value + "__" else "") + "&from=" + NatToString(from) + "&to=" + NatToString(to)
  }

  lemma NoUnderscoreNoPair(s: string, j: nat)
    requires j < |s| && s[j] != '_'
    ensures !OccursAt(s, "__", j)
  {
  }

  /** A tag that `split('__')[0]` gives back from `<tag>__...`: it holds no
      `__` and does not end in `_` (`load_test` qualifies, `a_` does not). */
  predicate ReadableTag(t: string) {
    !Contains(t, "__") && !EndsWith(t, "_")
  }

  /** The part after the tag holds no `_`. */
  lemma WindowTailHasNoUnderscore(from: nat, to: nat)
    ensures var rest := "&from=" + NatToString(from) + "&to=" + NatToString(to);
      forall k | 0 <= k < |rest| :: rest[k] != '_'
  {
    var rest := "&from=" + NatToString(from) + "&to=" + NatToString(to);
    forall k | 0 <= k < |rest|
      ensures rest[k] != '_'
    {
      if k < 6 {
      } else if k < 6 + |NatToString(from)| {
        assert rest[k] == NatToString(from)[k - 6];
      } else if k < 10 + |NatToString(from)| {
      } else {
        assert rest[k] == NatToString(to)[k - 10 - |NatToString(from)|];
      }
    }
  }

  /** In `<tag>__...`, no `__` starts inside a readable tag. */
  lemma NoPairInsideTag(t: string, rest: string)
    requires ReadableTag(t)
    ensures forall j | 0 <= j < |t| :: !OccursAt(t + "__" + rest, "__", j)
  {
    var s := t + "__" + rest;
    forall j | 0 <= j < |t|
      ensures !OccursAt(s, "__", j)
    {
      if j + 1 < |t| {
        assert s[j..j + 2] == t[j..j + 2];
        assert !OccursAt(t, "__", j);
      } else {
        assert t[|t| - 1..] == [t[|t| - 1]];
        assert s[j] == t[j];
        NoUnderscoreNoPair(s, j);
      }
    }
  }

  lemma {:induction false} TagOfFormatted(tag: Option<string>, from: nat, to: nat)
    requires tag.Some? ==> ReadableTag(tag.value)
    ensures TimeTag(FormatWindow(tag, from, to)) == tag
  {
    var s := FormatWindow(tag, from, to);
    var rest := "&from=" + NatToString(from) + "&to=" + NatToString(to);
    WindowTailHasNoUnderscore(from, to);
    if tag.Some? {
      var t := tag.value;
      assert s == t + "__" + rest;
      assert OccursAt(s, "__", |t|);
      NoPairInsideTag(t, rest);
      assert Find(s, "__", 0) == Some(|t|);
      assert s[..|t|] == t;
    } else {
      assert s == rest;
      forall j: nat
        ensures !OccursAt(s, "__", j)
      {
        if j < |s| {
          NoUnderscoreNoPair(s, j);
        }
      }
    }
  }

  /** The tag is read back exactly when it is readable: a `__` inside it, or
      a final `_` that joins the separator, moves the first `__` forward. */
  lemma TagReadsBackIff(t: string, from: nat, to: nat)
    ensures TimeTag(FormatWindow(Some(t), from, to)) == Some(t) <==> ReadableTag(t)
  {
    var s := FormatWindow(Some(t), from, to);
    if ReadableTag(t) {
      TagOfFormatted(Some(t), from, to);
    } else {
      var rest := "&from=" + NatToString(from) + "&to=" + NatToString(to);
      assert s == t + "__" + rest;
      if Contains(t, "__") {
        var j := Find(t, "__", 0).value;
        assert s[j..j + 2] == t[j..j + 2];
        assert OccursAt(s, "__", j);
      } else {
        var j := |t| - 1;
        assert t[j..j + 1] == "_";
        assert s[j..j + 2] == [t[j], '_'];
        assert OccursAt(s, "__", j);
      }
    }
  }

  /** The number read at `d` is the value of the digit string found there. */
  lemma NumberAtDigits(s: string, d: nat, digits: string)
    requires AllDigits(digits) && |digits| > 0
    requires OccursAt(s, digits, d)
    requires d + |digits| == |s| || !IsDigit(s[d + |digits|])
    ensures NumberAt(s, d) == DigitsValue(digits)
  {
    assert forall k | d <= k < d + |digits| :: IsDigit(s[k]) by {
      forall k | d <= k < d + |digits|
        ensures IsDigit(s[k])
      {
        assert s[k] == digits[k - d];
      }
    }
    DigitRunIs(s, d, |digits|);
    assert s[d..d + |digits|] == digits;
  }

  /** The layout of a formatted window: prefix, `&from=`, digits, `&to=`, digits. */
  predicate WindowLayout(s: string, p: string, a: string, b: string) {
    && s == p + "&from=" + a + "&to=" + b
    && '&' !in p
    && AllDigits(a) && |a| > 0
    && AllDigits(b) && |b| > 0
  }

  lemma FromOfLayout(s: string, p: string, a: string, b: string)
    requires WindowLayout(s, p, a, b)
    ensures MarkedNumber(s, "&from=") == Some(DigitsValue(a))
  {
    assert MarkedAt(s, "&from=", |p|) by {
      assert s[|p|..|p| + 6] == "&from=";
      assert s[|p| + 6] == a[0];
    }
    forall j | 0 <= j < |p|
      ensures !MarkedAt(s, "&from=", j)
    {
      assert s[j] == p[j];
    }
    var f := FirstMarked(s, "&from=", 0);
    assert f == Some(|p|);
    assert OccursAt(s, a, |p| + 6) by {
      assert s[|p| + 6..|p| + 6 + |a|] == a;
    }
    assert s[|p| + 6 + |a|] == '&';
    NumberAtDigits(s, |p| + 6, a);
  }

  lemma ToOfLayout(s: string, p: string, a: string, b: string)
    requires WindowLayout(s, p, a, b)
    ensures MarkedNumber(s, "&to=") == Some(DigitsValue(b))
  {
    var q := |p| + 6 + |a|;
    assert MarkedAt(s, "&to=", q) by {
      assert s[q..q + 4] == "&to=";
      assert s[q + 4] == b[0];
    }
    forall j | 0 <= j < q
      ensures !MarkedAt(s, "&to=", j)
    {
      if j < |p| {
        assert s[j] == p[j];
      } else if j == |p| {
        assert s[j + 1] == 'f';
      } else if j < |p| + 6 {
        assert s[j] == "&from="[j - |p|];
      } else {
        assert s[j] == a[j - |p| - 6];
      }
    }
    var f := FirstMarked(s, "&to=", 0);
    assert f == Some(q);
    assert OccursAt(s, b, q + 4) by {
      assert s[q + 4..q + 4 + |b|] == b;
    }
    NumberAtDigits(s, q + 4, b);
  }

  /** Parsing a window written as `<tag>__&from=<a>&to=<b>` (a readable tag
      without `&`) gives back the tag, both instants and the id it was given. */
  lemma ParseFormattedWindow(tag: Option<string>, from: nat, to: nat, id: nat, zoneName: string, format: real -> string)
    requires tag.Some? ==> ReadableTag(tag.value) && '&' !in tag.value
    ensures ParseTimestamp(FormatWindow(tag, from, to), id, zoneName, Some(format))
         == Success(Timestamp(tag, id, from, to, format(HumanSeconds(from)), format(HumanSeconds(to))))
  {
    var s := FormatWindow(tag, from, to);
    TagOfFormatted(tag, from, to);
    var p := if tag.Some? then tag.value + "__" else "";
    assert WindowLayout(s, p, NatToString(from), NatToString(to));
    FromOfLayout(s, p, NatToString(from), NatToString(to));
    ToOfLayout(s, p, NatToString(from), NatToString(to));
    DigitsValueOfNatToString(from);
    DigitsValueOfNatToString(to);
  }

  // ---------------------------------------------------------------------------
  // All windows

  /** `[parse(s, first + i) for i, s in enumerate(strs)]`, stopping at the
      first window that raises. */
  function ParseEach<T>(strs: seq<string>, first: nat, parse: (string, nat) -> Result<T>): (r: Result<seq<T>>)
    decreases |strs|
    ensures r.Success? <==> forall i | 0 <= i < |strs| :: parse(strs[i], first + i).Success?
    ensures r.Success? ==> |r.value| == |strs|
    ensures r.Success? ==> forall i | 0 <= i < |strs| :: parse(strs[i], first + i) == Success(r.value[i])
    ensures r.Failure? ==> exists i | 0 <= i < |strs| ::
              && parse(strs[i], first + i) == Failure(r.error)
              && forall k | 0 <= k < i :: parse(strs[k], first + k).Success?
  {
    if |strs| == 0 then Success([])
    else
      match parse(strs[0], first)
      case Failure(e) => Failure(e)
      case Success(t) =>
        var rest := ParseEach(strs[1..], first + 1, parse);
        ShiftParse(strs, first, parse);
        match rest
        case Failure(e) => Failure(e)
        case Success(ts) => Success([t] + ts)
  }

  lemma ShiftParse<T>(strs: seq<string>, first: nat, parse: (string, nat) -> Result<T>)
    requires |strs| > 0
    ensures forall i | 0 <= i < |strs| - 1 :: parse(strs[1..][i], first + 1 + i) == parse(strs[i + 1], first + (i + 1))
  {
  }

  /** The windows `strs` as GrafanaTimeDownloader objects numbered from `first`. */
  function ParseFrom(strs: seq<string>, first: nat, zoneName: string, zone: Zone): Result<seq<Timestamp>> {
    ParseEach(strs, first, (s, id) => ParseTimestamp(s, id, zoneName, zone))
  }

  /** The arguments ArgsParser reads (after argparse and the environment). */
  datatype CliArgs = CliArgs(
    login: Option<string>,
    password: Option<string>,
    configFile: string,
    configExists: bool,
    timestamps: Option<seq<string>>,
    uploadFolders: Option<seq<string>>,
    tz: string)

  /** None or '' */
  predicate Blank(s: Option<string>) {
    s.None? || s.value == ""
  }

  /** Python truthiness of an optional list. */
  predicate NonEmpty<T>(xs: Option<seq<T>>) {
    xs.Some? && |xs.value| > 0
  }

  /** `__validate_cli_args`: login, then password, then the config file, then
      "some timestamp or some upload folder". */
  function Validate(login: Option<string>, password: Option<string>, configFile: string, configExists: bool,
                    haveTimestamps: bool, uploadFolders: Option<seq<string>>): (r: Result<()>)
    ensures r.Success? <==> !Blank(login) && !Blank(password) && configExists && (haveTimestamps || NonEmpty(uploadFolders))
    ensures Blank(login) ==> r == Failure(ValueError("login"))
    ensures !Blank(login) && Blank(password) ==> r == Failure(ValueError("password"))
    ensures !Blank(login) && !Blank(password) && !configExists ==> r == Failure(FileNotFoundError(configFile))
    ensures r.Failure? && configExists && !Blank(login) && !Blank(password) ==> r == Failure(ValueError("timestamps"))
  {
    if Blank(login) then Failure(ValueError("login"))
    else if Blank(password) then Failure(ValueError("password"))
    else if !configExists then Failure(FileNotFoundError(configFile))
    else if !haveTimestamps && !NonEmpty(uploadFolders) then Failure(ValueError("timestamps"))
    else Success(())
  }

  /** ArgsParser: the windows are parsed (ids 0..n-1) before the arguments are
      validated. */
  function ParseArgs(a: CliArgs, zone: Zone): (r: Result<seq<Timestamp>>)
    ensures r.Success? ==> forall i | 0 <= i < |r.value| :: r.value[i].id == i
    ensures r.Success? ==> |r.value| == (if NonEmpty(a.timestamps) then |a.timestamps.value| else 0)
  {
    var ts :- if NonEmpty(a.timestamps) then ParseFrom(a.timestamps.value, 0, a.tz, zone) else Success([]);
    var _ :- Validate(a.login, a.password, a.configFile, a.configExists, |ts| > 0, a.uploadFolders);
    Success(ts)
  }

  /** A malformed window is reported before a missing login: parsing runs in
      the constructor ahead of validation. */
  lemma ParseErrorsComeFirst(a: CliArgs, zone: Zone)
    requires NonEmpty(a.timestamps)
    requires ParseFrom(a.timestamps.value, 0, a.tz, zone).Failure?
    ensures ParseArgs(a, zone) == Failure(ParseFrom(a.timestamps.value, 0, a.tz, zone).error)
  {
  }

  /** With well-formed windows the ids are exactly 0..n-1 in argument order
      and the first failing validation check decides the outcome. */
  lemma ParseArgsValid(a: CliArgs, zone: Zone)
    requires NonEmpty(a.timestamps)
    requires ParseFrom(a.timestamps.value, 0, a.tz, zone).Success?
    ensures ParseArgs(a, zone).Success? <==> !Blank(a.login) && !Blank(a.password) && a.configExists
    ensures ParseArgs(a, zone).Success? ==> ParseArgs(a, zone).value == ParseFrom(a.timestamps.value, 0, a.tz, zone).value
  {
  }
}
