/** The sub-block records of the LSM scan information and what each record
    type's `read()` derives from its tag table: the objective description,
    the laser classification, the data-channel name and the acquire flags. */
module ScanBlocks {
  import opened JavaRuntime
  import opened LsmStream
  import opened ScanValues

  // Sub-block tags. Java `int` literals from 0x80000000 up are negative.
  const SUBBLOCK_RECORDING: int := 0x1000_0000
  const SUBBLOCK_TRACK: int := 0x4000_0000
  const SUBBLOCK_LASER: int := 0x5000_0000
  const SUBBLOCK_DETECTION_CHANNEL: int := 0x7000_0000
  const SUBBLOCK_ILLUMINATION_CHANNEL: int := 0x9000_0000 - TWO_32
  const SUBBLOCK_BEAM_SPLITTER: int := 0xB000_0000 - TWO_32
  const SUBBLOCK_DATA_CHANNEL: int := 0xD000_0000 - TWO_32
  const SUBBLOCK_TIMER: int := 0x1200_0000
  const SUBBLOCK_MARKER: int := 0x1400_0000

  // Entry tags read by the record types.
  const RECORDING_ENTRY_DESCRIPTION: int := 0x1000_0002
  const RECORDING_ENTRY_OBJECTIVE: int := 0x1000_0004
  const TRACK_ENTRY_ACQUIRE: int := 0x4000_0006
  const TRACK_ENTRY_TIME_BETWEEN_STACKS: int := 0x4000_000B
  const LASER_ENTRY_NAME: int := 0x5000_0001
  const LASER_ENTRY_ACQUIRE: int := 0x5000_0002
  const LASER_ENTRY_POWER: int := 0x5000_0003
  const CHANNEL_ENTRY_PINHOLE_DIAMETER: int := 0x7000_0009
  const CHANNEL_ENTRY_ACQUIRE: int := 0x7000_000B
  const ILLUM_CHANNEL_WAVELENGTH: int := 0x9000_0003 - TWO_32
  const ILLUM_CHANNEL_ACQUIRE: int := 0x9000_0004 - TWO_32
  const DATA_CHANNEL_NAME: int := 0xD000_0001 - TWO_32
  const DATA_CHANNEL_ACQUIRE: int := 0xD000_0017 - TWO_32

  datatype Kind =
    | Recording | Laser | Track | DetectionChannel | IlluminationChannel
    | BeamSplitter | DataChannel | Timer | Marker

  /** The record type a SUBBLOCK entry's tag selects; other tags select none. */
  function KindOf(entry: int): (k: Option<Kind>)
    ensures k.Some? <==> entry in {SUBBLOCK_RECORDING, SUBBLOCK_LASER, SUBBLOCK_TRACK,
      SUBBLOCK_DETECTION_CHANNEL, SUBBLOCK_ILLUMINATION_CHANNEL, SUBBLOCK_BEAM_SPLITTER,
      SUBBLOCK_DATA_CHANNEL, SUBBLOCK_TIMER, SUBBLOCK_MARKER}
  {
    if entry == SUBBLOCK_RECORDING then Some(Recording)
    else if entry == SUBBLOCK_LASER then Some(Laser)
    else if entry == SUBBLOCK_TRACK then Some(Track)
    else if entry == SUBBLOCK_DETECTION_CHANNEL then Some(DetectionChannel)
    else if entry == SUBBLOCK_ILLUMINATION_CHANNEL then Some(IlluminationChannel)
    else if entry == SUBBLOCK_BEAM_SPLITTER then Some(BeamSplitter)
    else if entry == SUBBLOCK_DATA_CHANNEL then Some(DataChannel)
    else if entry == SUBBLOCK_TIMER then Some(Timer)
    else if entry == SUBBLOCK_MARKER then Some(Marker)
    else None
  }

  /** The fields each record type derives; None stands for Java's null.
      Doubles stay as their 64-bit patterns. */
  datatype Fields =
    | RecordingFields(description: Option<string>, correction: Option<string>, immersion: Option<string>,
                      magnification: Option<int>, lensNAText: Option<string>, iris: Option<bool>)
    | LaserFields(medium: Option<string>, laserType: Option<string>, power: Option<nat>)
    | TrackFields(timeIncrement: Option<nat>)
    | DetectionFields(pinhole: Option<nat>)
    | IlluminationFields(wavelength: Option<nat>)
    | DataChannelFields(name: Option<string>)
    | NoFields

  datatype Block = Block(kind: Kind, acquire: bool, fields: Fields)

  /** The fields record that belongs to each kind. */
  predicate Fits(kind: Kind, f: Fields)
  {
    match kind
    case Recording => f.RecordingFields?
    case Laser => f.LaserFields?
    case Track => f.TrackFields?
    case DetectionChannel => f.DetectionFields?
    case IlluminationChannel => f.IlluminationFields?
    case DataChannel => f.DataChannelFields?
    case _ => f.NoFields?
  }

  /** A record whose tag table hit the end of the file: the constructor
      caught the error, so every derived field is still null and `acquire`
      keeps its initial true. */
  function Unread(kind: Kind): (b: Block)
    ensures b.kind == kind && b.acquire && Fits(kind, b.fields)
  {
    var f := match kind
      case Recording => RecordingFields(None, None, None, None, None, None)
      case Laser => LaserFields(None, None, None)
      case Track => TrackFields(None)
      case DetectionChannel => DetectionFields(None)
      case IlluminationChannel => IlluminationFields(None)
      case DataChannel => DataChannelFields(None)
      case _ => NoFields;
    Block(kind, true, f)
  }

  // ---------------------------------------------------------------------
  // Casts of table entries

  /** `(String) blockData.get(tag)`. */
  function GetString(data: map<int, Value>, tag: int): (r: Result<Option<string>>)
    ensures r.Ok? <==> tag !in data || data[tag].AsciiValue?
    ensures r.Ok? && r.value.Some? ==> tag in data && data[tag] == AsciiValue(r.value.value)
  {
    if tag !in data then Ok(None)
    else match data[tag]
      case AsciiValue(s) => Ok(Some(s))
      case _ => Err(ClassCast)
  }

  /** `(Long) blockData.get(tag)`. */
  function GetLong(data: map<int, Value>, tag: int): (r: Result<Option<int>>)
    ensures r.Ok? <==> tag !in data || data[tag].LongValue?
    ensures r.Ok? && r.value.Some? ==> tag in data && data[tag] == LongValue(r.value.value)
  {
    if tag !in data then Ok(None)
    else match data[tag]
      case LongValue(n) => Ok(Some(n))
      case _ => Err(ClassCast)
  }

  /** `(Double) blockData.get(tag)`. */
  function GetRational(data: map<int, Value>, tag: int): (r: Result<Option<nat>>)
    ensures r.Ok? <==> tag !in data || data[tag].RationalValue?
    ensures r.Ok? && r.value.Some? ==> tag in data && data[tag] == RationalValue(r.value.value)
  {
    if tag !in data then Ok(None)
    else match data[tag]
      case RationalValue(b) => Ok(Some(b))
      case _ => Err(ClassCast)
  }

  /** `((Long) blockData.get(tag)).intValue() != 0`: a missing tag is a null
      dereference. */
  function RequireFlag(data: map<int, Value>, tag: int): (r: Result<bool>)
    ensures r.Ok? <==> tag in data && data[tag].LongValue?
    ensures r.Ok? ==> r.value == (data[tag].n != 0)
  {
    var v :- GetLong(data, tag);
    if v.None? then Err(NullPointer) else Ok(v.value != 0)
  }

  /** `((Double) blockData.get(tag)).floatValue()`: a missing tag is a null
      dereference. */
  function RequireRational(data: map<int, Value>, tag: int): (r: Result<nat>)
    ensures r.Ok? <==> tag in data && data[tag].RationalValue?
    ensures r.Ok? ==> data[tag] == RationalValue(r.value)
  {
    var v :- GetRational(data, tag);
    if v.None? then Err(NullPointer) else Ok(v.value)
  }

  /** An optional acquire flag: absent keeps the default true. */
  function OptionalFlag(data: map<int, Value>, tag: int): (r: Result<bool>)
    ensures r.Ok? <==> tag !in data || data[tag].LongValue?
    ensures r.Ok? ==> (r.value <==> tag !in data || data[tag].n != 0)
  {
    var v :- GetLong(data, tag);
    Ok(v.None? || v.value != 0)
  }

  // ---------------------------------------------------------------------
  // Objective description

  /** The pieces of `s` between single spaces (consecutive spaces give empty pieces). */
  function Pieces(s: string): (r: seq<string>)
    ensures |r| >= 1
    ensures forall k :: 0 <= k < |r| ==> ' ' !in r[k]
    decreases |s|
  {
    if s == [] then [""]
    else if s[0] == ' ' then [""] + Pieces(s[1..])
    else
      var rest := Pieces(s[1..]);
      [[s[0]] + rest[0]] + rest[1..]
  }

  /** The pieces joined back with one space between neighbours. */
  function JoinWithSpaces(ts: seq<string>): string
    requires |ts| >= 1
  {
    if |ts| == 1 then ts[0] else ts[0] + " " + JoinWithSpaces(ts[1..])
  }

  /** Splitting at spaces loses nothing: joining the pieces gives `s` back. */
  lemma {:induction false} PiecesRoundTrip(s: string)
    ensures JoinWithSpaces(Pieces(s)) == s
    decreases |s|
  {
    if s == [] {
    } else if s[0] == ' ' {
      PiecesRoundTrip(s[1..]);
      var rest := Pieces(s[1..]);
      assert Pieces(s) == [""] + rest;
      assert ([""] + rest)[1..] == rest;
      assert s == [' '] + s[1..];
    } else {
      PiecesRoundTrip(s[1..]);
      var rest := Pieces(s[1..]);
      var r := Pieces(s);
      assert r == [[s[0]] + rest[0]] + rest[1..];
      if |rest| == 1 {
        assert s == [s[0]] + s[1..];
      } else {
        assert r[1..] == rest[1..];
        assert JoinWithSpaces(rest) == rest[0] + " " + JoinWithSpaces(rest[1..]);
        assert s == [s[0]] + s[1..];
      }
    }
  }

  function DropTrailingEmpty(ts: seq<string>): (r: seq<string>)
    ensures |r| <= |ts| && r == ts[..|r|]
    ensures forall k :: |r| <= k < |ts| ==> ts[k] == ""
    ensures r == [] || r[|r| - 1] != ""
  {
    if ts != [] && ts[|ts| - 1] == "" then DropTrailingEmpty(ts[..|ts| - 1]) else ts
  }

  /** `s.split(" ")`: the input itself when it holds no space, otherwise its
      pieces with the trailing empty ones removed. */
  function JavaSplit(s: string): (r: seq<string>)
    ensures forall k :: 0 <= k < |r| ==> ' ' !in r[k]
  {
    if ' ' !in s then [s] else DropTrailingEmpty(Pieces(s))
  }

  /** Index of the first occurrence of `c`, or -1. */
  function IndexOf(s: string, c: char): (i: int)
    ensures -1 <= i < |s|
    ensures i == -1 <==> c !in s
    ensures 0 <= i ==> s[i] == c && c !in s[..i]
  {
    if s == [] then -1
    else if s[0] == c then 0
    else
      var j := IndexOf(s[1..], c);
      assert j >= 0 ==> s[..j + 1] == [s[0]] + s[1..][..j];
      if j < 0 then -1 else j + 1
  }

  /** Index of the first token holding a '/', or the token count. */
  function FirstSlashToken(ts: seq<string>): (n: nat)
    ensures n <= |ts|
    ensures forall k :: 0 <= k < n ==> '/' !in ts[k]
    ensures n < |ts| ==> '/' in ts[n]
  {
    if ts == [] then 0
    else if '/' in ts[0] then 0
    else 1 + FirstSlashToken(ts[1..])
  }

  function Concat(ts: seq<string>): string
  {
    if ts == [] then "" else Concat(ts[..|ts| - 1]) + ts[|ts| - 1]
  }

  predicate IsDigit(c: char) { '0' <= c <= '9' }

  function DigitValue(c: char): nat
    requires IsDigit(c)
  {
    c as int - '0' as int
  }

  predicate IsDecimal(s: string)
  {
    |s| >= 1 && forall k :: 0 <= k < |s| ==> IsDigit(s[k])
  }

  /** The value of a digit string, read from its last digit back. */
  function DigitsValue(s: string): (v: nat)
    requires forall k :: 0 <= k < |s| ==> IsDigit(s[k])
  {
    if s == [] then 0 else 10 * DigitsValue(s[..|s| - 1]) + DigitValue(s[|s| - 1])
  }

  function Pow10(n: nat): (p: nat)
    ensures p >= 1
  {
    if n == 0 then 1 else 10 * Pow10(n - 1)
  }

  /** Read from the first digit on instead, each digit weighs its power of
      ten: the positional value of the string. */
  lemma {:induction false} DigitsValueFromFront(c: char, s: string)
    requires IsDigit(c) && forall k :: 0 <= k < |s| ==> IsDigit(s[k])
    ensures DigitsValue([c] + s) == DigitValue(c) * Pow10(|s|) + DigitsValue(s)
    decreases |s|
  {
    var cs := [c] + s;
    if s == [] {
      assert cs[..0] == [];
    } else {
      var front := s[..|s| - 1];
      assert cs[..|cs| - 1] == [c] + front;
      assert cs[|cs| - 1] == s[|s| - 1];
      DigitsValueFromFront(c, front);
      var d, p, last := DigitValue(c), Pow10(|front|), DigitValue(s[|s| - 1]);
      assert DigitsValue(cs) == 10 * DigitsValue([c] + front) + last;
      assert DigitsValue(s) == 10 * DigitsValue(front) + last;
      ShiftDigit(d, p, DigitsValue(front), last);
    }
  }

  lemma ShiftDigit(d: int, p: int, x: int, last: int)
    ensures 10 * (d * p + x) + last == d * (10 * p) + (10 * x + last)
  {
  }

  /** `Integer.parseInt` (radix 10, as of Java 6): an optional minus sign,
      at least one digit, and a value within the `int` range; anything else
      is a NumberFormatException, which the reader catches (None). */
  function ParseJavaInt(s: string): (r: Option<int>)
    ensures r.Some? ==> IsInt(r.value)
    ensures IsDecimal(s) ==> r == if DigitsValue(s) <= INT_MAX then Some(DigitsValue(s)) else None
    ensures |s| >= 1 && s[0] == '-' && IsDecimal(s[1..]) ==>
      var m: int := DigitsValue(s[1..]);
      r == if -m >= INT_MIN then Some(-m) else None
    ensures r.Some? ==> IsDecimal(s) || (|s| >= 1 && s[0] == '-' && IsDecimal(s[1..]))
  {
    var negative := |s| >= 1 && s[0] == '-';
    var digits := if negative then s[1..] else s;
    if digits == [] || exists k :: 0 <= k < |digits| && !IsDigit(digits[k]) then None
    else
      var magnitude: int := DigitsValue(digits);
      var v := if negative then -magnitude else magnitude;
      if IsInt(v) then Some(v) else None
  }

  /** `String.trim`: leading and trailing characters up to U+0020 removed. */
  function Trim(s: string): (r: string)
    ensures |r| <= |s|
    ensures r != [] ==> r[0] > ' ' && r[|r| - 1] > ' '
    decreases |s|
  {
    if s != [] && s[0] <= ' ' then Trim(s[1..])
    else if s != [] && s[|s| - 1] <= ' ' then Trim(s[..|s| - 1])
    else s
  }

  /** `s[i..j]` is what is left once the characters up to U+0020 before `i`
      and from `j` on are removed. */
  predicate TrimmedAt(s: string, i: int, j: int)
  {
    0 <= i <= j <= |s| &&
    (forall k :: 0 <= k < i ==> s[k] <= ' ') &&
    (forall k :: j <= k < |s| ==> s[k] <= ' ')
  }

  /** The trimmed text is the infix of `s` between a run of characters up to
      U+0020 at each end; its own ends are above U+0020, so no longer run
      could be removed. */
  lemma {:induction false} TrimIsInfix(s: string)
    ensures exists i, j :: TrimmedAt(s, i, j) && Trim(s) == s[i..j]
    decreases |s|
  {
    if s != [] && s[0] <= ' ' {
      TrimIsInfix(s[1..]);
      var i, j :| TrimmedAt(s[1..], i, j) && Trim(s[1..]) == s[1..][i..j];
      TrimmedAfterBlank(s, i, j);
    } else if s != [] && s[|s| - 1] <= ' ' {
      var front := s[..|s| - 1];
      TrimIsInfix(front);
      var i, j :| TrimmedAt(front, i, j) && Trim(front) == front[i..j];
      TrimmedBeforeBlank(s, i, j);
    } else {
      assert TrimmedAt(s, 0, |s|) && s[0..|s|] == s;
    }
  }

  lemma TrimmedAfterBlank(s: string, i: int, j: int)
    requires s != [] && s[0] <= ' ' && TrimmedAt(s[1..], i, j)
    ensures TrimmedAt(s, i + 1, j + 1) && s[1..][i..j] == s[i + 1..j + 1]
  {
    forall k | 0 <= k < i + 1 ensures s[k] <= ' ' {
      if k > 0 { assert s[k] == s[1..][k - 1]; }
    }
    forall k | j + 1 <= k < |s| ensures s[k] <= ' ' {
      assert s[k] == s[1..][k - 1];
    }
  }

  lemma TrimmedBeforeBlank(s: string, i: int, j: int)
    requires s != [] && s[|s| - 1] <= ' ' && TrimmedAt(s[..|s| - 1], i, j)
    ensures TrimmedAt(s, i, j) && s[..|s| - 1][i..j] == s[i..j]
  {
    var front := s[..|s| - 1];
    forall k | 0 <= k < i ensures s[k] <= ' ' {
      assert s[k] == front[k];
    }
    forall k | j <= k < |s| ensures s[k] <= ' ' {
      if k < |s| - 1 { assert s[k] == front[k]; }
    }
  }

  /** Java's case-insensitive comparison of one character with the ASCII
      letters of "iris": the dotless i and the capital I with dot compare
      equal to i, the long s to s. */
  predicate IsLetterI(c: char) { c == 'i' || c == 'I' || c == 'ı' || c == 'İ' }
  predicate IsLetterR(c: char) { c == 'r' || c == 'R' }
  predicate IsLetterS(c: char) { c == 's' || c == 'S' || c == 'ſ' }

  /** `t.equalsIgnoreCase("iris")`. */
  predicate IsIris(t: string)
  {
    |t| == 4 && IsLetterI(t[0]) && IsLetterR(t[1]) && IsLetterI(t[2]) && IsLetterS(t[3])
  }

  datatype Objective = Objective(correction: string, immersion: string, magnification: Option<int>,
                                 lensNAText: Option<string>, iris: bool)

  /** `Recording.read`'s parse of the objective description. The token with
      the first '/' holds magnification and numerical aperture; the
      magnification is the text before the character preceding the '/'. A
      '/' at index 0 makes that end index -1: StringIndexOutOfBounds. */
  function ParseObjective(objective: string): (r: Result<Objective>)
    ensures r.Err? ==> r.fault == StringIndexOutOfBounds
  {
    var tokens := JavaSplit(objective);
    var next := FirstSlashToken(tokens);
    var correction := Concat(tokens[..next]);
    if next < |tokens| && IndexOf(tokens[next], '/') == 0 then Err(StringIndexOutOfBounds)
    else
      var p := if next < |tokens| then tokens[next] else "";
      var slash := IndexOf(p, '/');
      var magnification := if next < |tokens| then ParseJavaInt(p[..slash - 1]) else None;
      var lensNA := if next < |tokens| then Some(p[slash + 1..]) else None;
      var afterNA := if next < |tokens| then next + 1 else next;
      var immersion := if afterNA < |tokens| then tokens[afterNA] else "Unknown";
      var afterImmersion := if afterNA < |tokens| then afterNA + 1 else afterNA;
      var iris := afterImmersion < |tokens| && IsIris(Trim(tokens[afterImmersion]));
      Ok(Objective(correction, immersion, magnification, lensNA, iris))
  }

  /** What the objective parse promises: the correction is the tokens before
      the first '/' glued together; the magnification is the integer before
      the character that precedes that token's first '/', and the numerical
      aperture text follows the '/'; with no such token there is neither
      magnification nor numerical aperture. The immersion is the token after
      that one, or "Unknown" when there is none; iris holds exactly when the
      token after the immersion, trimmed, equals "iris" ignoring case. A
      failure needs a '/' at the start of that token. */
  lemma ObjectiveParts(objective: string)
    ensures var tokens := JavaSplit(objective);
      var n := FirstSlashToken(tokens);
      var r := ParseObjective(objective);
      (r.Err? <==> n < |tokens| && tokens[n][0] == '/') &&
      (r.Ok? ==> r.value.correction == Concat(tokens[..n])) &&
      (r.Ok? && n == |tokens| ==>
        r.value.magnification.None? && r.value.lensNAText.None? &&
        r.value.immersion == "Unknown" && !r.value.iris) &&
      (r.Ok? && n < |tokens| ==>
        var p := tokens[n];
        var slash := IndexOf(p, '/');
        1 <= slash &&
        r.value.magnification == ParseJavaInt(p[..slash - 1]) &&
        r.value.lensNAText == Some(p[slash + 1..])) &&
      (r.Ok? ==>
        var m := if n < |tokens| then n + 1 else n;
        r.value.immersion == (if m < |tokens| then tokens[m] else "Unknown") &&
        (r.value.iris <==> m + 1 < |tokens| && IsIris(Trim(tokens[m + 1]))))
  {
  }

  /** `Recording.read` accumulates the correction token by token. */
  method ObjectiveCorrection(tokens: seq<string>) returns (correction: string, next: nat)
    ensures next == FirstSlashToken(tokens)
    ensures correction == Concat(tokens[..next])
  {
    correction := "";
    next := 0;
    while next < |tokens| && '/' !in tokens[next]
      invariant next <= |tokens|
      invariant forall k :: 0 <= k < next ==> '/' !in tokens[k]
      invariant correction == Concat(tokens[..next])
    {
      assert tokens[..next + 1][..next] == tokens[..next];
      correction := correction + tokens[next];
      next := next + 1;
    }
    FirstSlashTokenIsFirst(tokens, next);
  }

  lemma {:induction false} FirstSlashTokenIsFirst(ts: seq<string>, n: nat)
    requires n <= |ts|
    requires forall k :: 0 <= k < n ==> '/' !in ts[k]
    requires n == |ts| || '/' in ts[n]
    ensures FirstSlashToken(ts) == n
  {
    if ts != [] && n > 0 {
      FirstSlashTokenIsFirst(ts[1..], n - 1);
    }
  }

  // ---------------------------------------------------------------------
  // Laser and data-channel names

  predicate StartsWith(s: string, prefix: string)
  {
    |prefix| <= |s| && s[..|prefix|] == prefix
  }

  /** `Laser.read`'s classification of the laser name into (medium, type). */
  function ClassifyLaser(name: string): (mediumAndType: (string, string))
  {
    if StartsWith(name, "HeNe") then ("HeNe", "Gas")
    else if StartsWith(name, "Argon") then ("Ar", "Gas")
    else if name == "Titanium:Sapphire" || name == "Mai Tai" then ("TiSapphire", "SolidState")
    else if name == "YAG" then ("", "SolidState")
    else if name == "Ar/Kr" then ("", "Gas")
    else ("", name)
  }

  /** A name that none of the rules recognises keeps its text as the type and
      gets an empty medium; a recognised one gets a Gas or SolidState type,
      and a non-empty medium exactly for HeNe, Argon and Ti:Sapphire names. */
  lemma ClassifyLaserCases(name: string)
    ensures var (medium, laserType) := ClassifyLaser(name);
      var known := StartsWith(name, "HeNe") || StartsWith(name, "Argon") ||
        name in {"Titanium:Sapphire", "Mai Tai", "YAG", "Ar/Kr"};
      (known ==> laserType in {"Gas", "SolidState"}) &&
      (!known ==> medium == "" && laserType == name) &&
      (medium != "" <==>
        (StartsWith(name, "HeNe") || StartsWith(name, "Argon") || name in {"Titanium:Sapphire", "Mai Tai"}))
  {
  }

  /** The data-channel name cut before its first character below code 10. */
  function NameBeforeControl(name: string): (r: string)
    ensures |r| <= |name| && r == name[..|r|]
    ensures forall k :: 0 <= k < |r| ==> r[k] as int >= 10
    ensures |r| < |name| ==> (name[|r|] as int) < 10
  {
    if name == [] || (name[0] as int) < 10 then ""
    else [name[0]] + NameBeforeControl(name[1..])
  }

  /** `DataChannel.read`'s truncation loop. */
  method TruncateName(name: string) returns (r: string)
    ensures r == NameBeforeControl(name)
  {
    r := name;
    var i := 0;
    while i < |name|
      invariant 0 <= i <= |name|
      invariant forall k :: 0 <= k < i ==> name[k] as int >= 10
      invariant r == name
    {
      if (name[i] as int) < 10 {
        r := name[..i];
        break;
      }
      i := i + 1;
    }
    NameBeforeControlUnique(name, r);
  }

  /** The cut is determined by its two properties. */
  lemma {:induction false} NameBeforeControlUnique(name: string, r: string)
    requires |r| <= |name| && r == name[..|r|]
    requires forall k :: 0 <= k < |r| ==> r[k] as int >= 10
    requires |r| < |name| ==> (name[|r|] as int) < 10
    ensures r == NameBeforeControl(name)
  {
    if r != [] {
      assert name[0] == r[0];
      NameBeforeControlUnique(name[1..], r[1..]);
    }
  }

  // ---------------------------------------------------------------------
  // The record types' read()

  /** What the record's `read()` derives from a complete tag table, in the
      source's order of evaluation; casts to the wrong type and null
      dereferences are errors that escape the reader. */
  function Derive(kind: Kind, data: map<int, Value>): (r: Result<Block>)
    ensures r.Ok? ==> r.value.kind == kind && Fits(kind, r.value.fields)
  {
    match kind
    case Recording =>
      var description :- GetString(data, RECORDING_ENTRY_DESCRIPTION);
      var objective :- GetString(data, RECORDING_ENTRY_OBJECTIVE);
      var o :- ParseObjective(objective.GetOr(""));
      Ok(Block(kind, true, RecordingFields(description, Some(o.correction), Some(o.immersion),
                                           o.magnification, o.lensNAText, Some(o.iris))))
    case Laser =>
      var name :- GetString(data, LASER_ENTRY_NAME);
      var (medium, laserType) := ClassifyLaser(name.GetOr(""));
      var acquire :- RequireFlag(data, LASER_ENTRY_ACQUIRE);
      var power :- GetRational(data, LASER_ENTRY_POWER);
      Ok(Block(kind, acquire, LaserFields(Some(medium), Some(laserType), power)))
    case Track =>
      var timeIncrement :- RequireRational(data, TRACK_ENTRY_TIME_BETWEEN_STACKS);
      var acquire :- RequireFlag(data, TRACK_ENTRY_ACQUIRE);
      Ok(Block(kind, acquire, TrackFields(Some(timeIncrement))))
    case DetectionChannel =>
      var pinhole :- RequireRational(data, CHANNEL_ENTRY_PINHOLE_DIAMETER);
      var acquire :- RequireFlag(data, CHANNEL_ENTRY_ACQUIRE);
      Ok(Block(kind, acquire, DetectionFields(Some(pinhole))))
    case IlluminationChannel =>
      var wavelength :- RequireRational(data, ILLUM_CHANNEL_WAVELENGTH);
      var acquire :- OptionalFlag(data, ILLUM_CHANNEL_ACQUIRE);
      Ok(Block(kind, acquire, IlluminationFields(Some(wavelength))))
    case DataChannel =>
      var name :- GetString(data, DATA_CHANNEL_NAME);
      if name.None? then Err(NullPointer)
      else
        var acquire :- OptionalFlag(data, DATA_CHANNEL_ACQUIRE);
        Ok(Block(kind, acquire, DataChannelFields(Some(NameBeforeControl(name.value)))))
    case _ =>
      Ok(Block(kind, true, NoFields))
  }

  // What a tag table holds under one tag, with Java's null for "absent".
  predicate MayText(data: map<int, Value>, tag: int) { tag !in data || data[tag].AsciiValue? }
  predicate MayLong(data: map<int, Value>, tag: int) { tag !in data || data[tag].LongValue? }
  predicate MayBits(data: map<int, Value>, tag: int) { tag !in data || data[tag].RationalValue? }
  predicate HasLong(data: map<int, Value>, tag: int) { tag in data && data[tag].LongValue? }
  predicate HasBits(data: map<int, Value>, tag: int) { tag in data && data[tag].RationalValue? }

  function TextOf(data: map<int, Value>, tag: int): Option<string>
  {
    if tag in data && data[tag].AsciiValue? then Some(data[tag].text) else None
  }

  function BitsOf(data: map<int, Value>, tag: int): Option<nat>
  {
    if tag in data && data[tag].RationalValue? then Some(data[tag].bits) else None
  }

  /** When each record type's `read()` completes: every tag it casts holds
      the cast's type or is absent, the tags it unboxes are present, the
      DataChannel name is present, and the objective description parses. */
  lemma DeriveSucceeds(kind: Kind, data: map<int, Value>)
    ensures var ok := Derive(kind, data).Ok?;
      (kind == Recording ==>
        (ok <==> MayText(data, RECORDING_ENTRY_DESCRIPTION) && MayText(data, RECORDING_ENTRY_OBJECTIVE) &&
                 ParseObjective(TextOf(data, RECORDING_ENTRY_OBJECTIVE).GetOr("")).Ok?)) &&
      (kind == Laser ==>
        (ok <==> MayText(data, LASER_ENTRY_NAME) && HasLong(data, LASER_ENTRY_ACQUIRE) &&
                 MayBits(data, LASER_ENTRY_POWER))) &&
      (kind == Track ==>
        (ok <==> HasBits(data, TRACK_ENTRY_TIME_BETWEEN_STACKS) && HasLong(data, TRACK_ENTRY_ACQUIRE))) &&
      (kind == DetectionChannel ==>
        (ok <==> HasBits(data, CHANNEL_ENTRY_PINHOLE_DIAMETER) && HasLong(data, CHANNEL_ENTRY_ACQUIRE))) &&
      (kind == IlluminationChannel ==>
        (ok <==> HasBits(data, ILLUM_CHANNEL_WAVELENGTH) && MayLong(data, ILLUM_CHANNEL_ACQUIRE))) &&
      (kind == DataChannel ==>
        (ok <==> TextOf(data, DATA_CHANNEL_NAME).Some? && MayLong(data, DATA_CHANNEL_ACQUIRE))) &&
      (kind in {BeamSplitter, Timer, Marker} ==> ok)
  {
  }

  /** The fields each record type derives, tag by tag: the Recording's
      description and the parts of its objective, the Laser's medium and
      type by the name classification and its power, the double-valued
      fields of Track, DetectionChannel and IlluminationChannel, and the
      DataChannel name cut before its first control character. */
  lemma DerivedFields(kind: Kind, data: map<int, Value>)
    ensures var r := Derive(kind, data);
      (kind == Recording && r.Ok? ==>
        var o := ParseObjective(TextOf(data, RECORDING_ENTRY_OBJECTIVE).GetOr(""));
        o.Ok? &&
        r.value.fields == RecordingFields(TextOf(data, RECORDING_ENTRY_DESCRIPTION), Some(o.value.correction),
                                          Some(o.value.immersion), o.value.magnification, o.value.lensNAText,
                                          Some(o.value.iris))) &&
      (kind == Laser && r.Ok? ==>
        var (medium, laserType) := ClassifyLaser(TextOf(data, LASER_ENTRY_NAME).GetOr(""));
        r.value.fields == LaserFields(Some(medium), Some(laserType), BitsOf(data, LASER_ENTRY_POWER))) &&
      (kind == Track && r.Ok? ==>
        r.value.fields == TrackFields(BitsOf(data, TRACK_ENTRY_TIME_BETWEEN_STACKS))) &&
      (kind == DetectionChannel && r.Ok? ==>
        r.value.fields == DetectionFields(BitsOf(data, CHANNEL_ENTRY_PINHOLE_DIAMETER))) &&
      (kind == IlluminationChannel && r.Ok? ==>
        r.value.fields == IlluminationFields(BitsOf(data, ILLUM_CHANNEL_WAVELENGTH))) &&
      (kind == DataChannel && r.Ok? ==>
        r.value.fields == DataChannelFields(Some(NameBeforeControl(TextOf(data, DATA_CHANNEL_NAME).GetOr(""))))) &&
      (kind in {BeamSplitter, Timer, Marker} ==> r == Ok(Block(kind, true, NoFields)))
  {
    match kind {
      case Recording => DerivedRecording(data);
      case Laser =>
      case _ =>
    }
  }

  lemma DerivedRecording(data: map<int, Value>)
    ensures var r := Derive(Recording, data);
      r.Ok? ==>
        var o := ParseObjective(TextOf(data, RECORDING_ENTRY_OBJECTIVE).GetOr(""));
        o.Ok? &&
        r.value.fields == RecordingFields(TextOf(data, RECORDING_ENTRY_DESCRIPTION), Some(o.value.correction),
                                          Some(o.value.immersion), o.value.magnification, o.value.lensNAText,
                                          Some(o.value.iris))
  {
  }

  /** The acquire defaults: records whose `read()` does not touch the flag
      keep true; IlluminationChannel and DataChannel keep true when their
      acquire tag is absent and take "value != 0" when it is a LONG; Laser,
      Track and DetectionChannel cannot be built without the tag. */
  lemma AcquireDefaults(kind: Kind, data: map<int, Value>)
    ensures var r := Derive(kind, data);
      (kind in {Recording, BeamSplitter, Timer, Marker} && r.Ok? ==> r.value.acquire) &&
      (kind == IlluminationChannel && r.Ok? ==>
        (r.value.acquire <==> ILLUM_CHANNEL_ACQUIRE !in data || data[ILLUM_CHANNEL_ACQUIRE].n != 0)) &&
      (kind == DataChannel && r.Ok? ==>
        (r.value.acquire <==> DATA_CHANNEL_ACQUIRE !in data || data[DATA_CHANNEL_ACQUIRE].n != 0)) &&
      (kind == Laser && LASER_ENTRY_ACQUIRE !in data ==> r.Err?) &&
      (kind == Track && TRACK_ENTRY_ACQUIRE !in data ==> r.Err?) &&
      (kind == DetectionChannel && CHANNEL_ENTRY_ACQUIRE !in data ==> r.Err?) &&
      (kind in {Laser, Track, DetectionChannel} && r.Ok? ==>
        var tag := if kind == Laser then LASER_ENTRY_ACQUIRE
                   else if kind == Track then TRACK_ENTRY_ACQUIRE else CHANNEL_ENTRY_ACQUIRE;
        tag in data && (r.value.acquire <==> data[tag].n != 0))
  {
  }

  /** The unboxing failures: a DataChannel without a name and a Track,
      DetectionChannel or IlluminationChannel without its double-valued
      field fail with a null dereference. */
  lemma MissingTagsFail(data: map<int, Value>)
    ensures DATA_CHANNEL_NAME !in data ==> Derive(DataChannel, data) == Err(NullPointer)
    ensures TRACK_ENTRY_TIME_BETWEEN_STACKS !in data ==> Derive(Track, data) == Err(NullPointer)
    ensures CHANNEL_ENTRY_PINHOLE_DIAMETER !in data ==> Derive(DetectionChannel, data) == Err(NullPointer)
    ensures ILLUM_CHANNEL_WAVELENGTH !in data ==> Derive(IlluminationChannel, data) == Err(NullPointer)
  {
  }
}
