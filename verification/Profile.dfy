/**
 * The pressure-profile text codec of custom_components/rocket_r60v/entities.py: five steps of time and
 * pressure as "seconds:bar" words against a 15-byte block. Numbers are held in exact tenths.
 */
module Profile {
  import opened Wrappers

  const PROFILE_LEN: nat := 15
  const PROFILE_STEPS: nat := 5
  const MAX_SECONDS: nat := 600  // 60.0 s in tenths
  const MAX_BAR: nat := 100      // 10.0 bar in tenths

  /** One step, in tenths of a second and tenths of a bar. */
  datatype Step = Step(seconds: nat, bar: nat)

  const NO_STEP: Step := Step(0, 0)

  datatype ProfileError = TooManySteps | NotAPair | NonNumeric | TimeOutOfRange | PressureOutOfRange

  // -- numbers ------------------------------------------------------------------

  function Digit(n: nat): char
    requires n < 10
  {
    "0123456789"[n]
  }

  function Decimal(n: nat): string {
    if n < 10 then [Digit(n)] else Decimal(n / 10) + [Digit(n % 10)]
  }

  function ParseDecimal(s: string): Option<nat> {
    if s == "" || !('0' <= s[|s| - 1] <= '9') then None
    else
      var last := s[|s| - 1] as int - '0' as int;
      if |s| == 1 then Some(last)
      else
        match ParseDecimal(s[..|s| - 1])
        case None => None
        case Some(high) => Some(10 * high + last)
  }

  /** `_fmt_num`: one decimal, dropped when it is zero. */
  function PrintTenths(n: nat): string {
    if n % 10 == 0 then Decimal(n / 10) else Decimal(n / 10) + "." + [Digit(n % 10)]
  }

  /** Position of the first `c`, or the length when there is none. */
  function Find(s: string, c: char): (i: nat)
    ensures i <= |s| && (i < |s| ==> s[i] == c) && forall j :: 0 <= j < i ==> s[j] != c
  {
    if s == "" || s[0] == c then 0 else 1 + Find(s[1..], c)
  }

  /** A number of at most one decimal, read as tenths. */
  function ParseTenths(s: string): Option<nat> {
    var dot := Find(s, '.');
    if dot == |s| then
      match ParseDecimal(s)
      case None => None
      case Some(n) => Some(10 * n)
    else
      var whole, fraction := s[..dot], s[dot + 1..];
      if |fraction| > 1 || (whole == "" && fraction == "") then None
      else
        var w := if whole == "" then Some(0) else ParseDecimal(whole);
        var f := if fraction == "" then Some(0) else ParseDecimal(fraction);
        if w.Some? && f.Some? then Some(10 * w.value + f.value) else None
  }

  // -- words ----------------------------------------------------------------------

  /** White space as `str.split` sees it. */
  predicate IsSpace(c: char) {
    var n := c as int;
    || n == 0x20 || 0x09 <= n <= 0x0D || 0x1C <= n <= 0x1F || n == 0x85 || n == 0xA0 || n == 0x1680
    || 0x2000 <= n <= 0x200A || n == 0x2028 || n == 0x2029 || n == 0x202F || n == 0x205F || n == 0x3000
  }

  /** Length of the leading run of non-space characters. */
  function WordLength(s: string): (n: nat)
    ensures n <= |s|
    ensures forall j :: 0 <= j < n ==> !IsSpace(s[j])
    ensures n < |s| ==> IsSpace(s[n])
  {
    if s == "" || IsSpace(s[0]) then 0 else 1 + WordLength(s[1..])
  }

  /** `strip` then `split`: the maximal runs of non-space characters. */
  function Words(s: string): seq<string>
    decreases |s|
  {
    if s == "" then []
    else if IsSpace(s[0]) then Words(s[1..])
    else [s[..WordLength(s)]] + Words(s[WordLength(s)..])
  }

  function Joined(words: seq<string>): string {
    if words == [] then ""
    else if |words| == 1 then words[0]
    else words[0] + " " + Joined(words[1..])
  }

  // -- steps ------------------------------------------------------------------------

  function PrintStep(step: Step): string {
    PrintTenths(step.seconds) + ":" + PrintTenths(step.bar)
  }

  predicate InRange(step: Step) {
    step.seconds <= MAX_SECONDS && step.bar <= MAX_BAR
  }

  function ParseStep(word: string): Result<Step, ProfileError> {
    var colon := Find(word, ':');
    if colon == |word| || ':' in word[colon + 1..] then Err(NotAPair)
    else
      match (ParseTenths(word[..colon]), ParseTenths(word[colon + 1..]))
      case (Some(seconds), Some(bar)) =>
        if seconds > MAX_SECONDS then Err(TimeOutOfRange)
        else if bar > MAX_BAR then Err(PressureOutOfRange)
        else Ok(Step(seconds, bar))
      case _ => Err(NonNumeric)
  }

  function Prepended(steps: seq<Step>, rest: Result<seq<Step>, ProfileError>): Result<seq<Step>, ProfileError> {
    match rest
    case Err(e) => Err(e)
    case Ok(more) => Ok(steps + more)
  }

  /** Words parsed left to right; the first bad one decides the error. */
  function ParseSteps(words: seq<string>): Result<seq<Step>, ProfileError> {
    if words == [] then Ok([])
    else
      match ParseStep(words[0])
      case Err(e) => Err(e)
      case Ok(step) =>
        Prepended([step], ParseSteps(words[1..]))
  }

  function StepsOf(text: string): Result<seq<Step>, ProfileError> {
    var words := Words(text);
    if |words| > PROFILE_STEPS then Err(TooManySteps) else ParseSteps(words)
  }

  function Padded(steps: seq<Step>): (padded: seq<Step>)
    requires |steps| <= PROFILE_STEPS
    ensures |padded| == PROFILE_STEPS
  {
    steps + seq(PROFILE_STEPS - |steps|, _ => NO_STEP)
  }

  // -- blocks ---------------------------------------------------------------------------

  predicate IsBlock(block: seq<Byte>) {
    |block| >= PROFILE_LEN
  }

  function StepAt(block: seq<Byte>, i: nat): Step
    requires IsBlock(block) && i < PROFILE_STEPS
  {
    Step(block[2 * i] as int + 256 * block[2 * i + 1] as int, block[10 + i])
  }

  function BlockSteps(block: seq<Byte>): (steps: seq<Step>)
    requires IsBlock(block)
    ensures |steps| == PROFILE_STEPS
  {
    seq(PROFILE_STEPS, i requires 0 <= i < PROFILE_STEPS => StepAt(block, i))
  }

  function PrintSteps(steps: seq<Step>): (words: seq<string>)
    ensures |words| == |steps|
  {
    seq(|steps|, i requires 0 <= i < |steps| => PrintStep(steps[i]))
  }

  /** Little-endian times first, then the pressures. */
  predicate Holds(block: seq<Byte>, steps: seq<Step>) {
    IsBlock(block) && |block| == PROFILE_LEN && BlockSteps(block) == steps
  }

  /** Byte for byte: each step's time low byte first, then the pressures; zeros for missing steps. */
  predicate IsLaidOut(block: seq<Byte>, steps: seq<Step>) {
    && |block| == 15
    && forall i :: 0 <= i < 5 ==> IsLaidOutAt(block, i, if i < |steps| then steps[i] else Step(0, 0))
  }

  predicate IsLaidOutAt(block: seq<Byte>, i: nat, step: Step)
    requires |block| == 15 && i < 5
  {
    block[2 * i] as int + 256 * block[2 * i + 1] as int == step.seconds && block[10 + i] as int == step.bar
  }

  lemma HeldIsLaidOut(block: seq<Byte>, steps: seq<Step>)
    requires |steps| <= PROFILE_STEPS && Holds(block, Padded(steps))
    ensures IsLaidOut(block, steps)
  {
    var padded := Padded(steps);
    assert forall i :: 0 <= i < 5 ==> BlockSteps(block)[i] == StepAt(block, i);
    assert forall i :: 0 <= i < 5 ==> padded[i] == if i < |steps| then steps[i] else Step(0, 0);
  }

  method DecodeProfile(block: seq<Byte>) returns (text: string)
    requires IsBlock(block)
    ensures text == Joined(PrintSteps(BlockSteps(block)))
  {
    hide PrintTenths, Joined;
    var words: seq<string> := [];
    for i := 0 to PROFILE_STEPS
      invariant |words| == i
      invariant forall j :: 0 <= j < i ==> words[j] == PrintStep(StepAt(block, j))
    {
      var seconds := block[i * 2] as int + 256 * block[i * 2 + 1] as int;
      var bar := block[10 + i];
      words := words + [PrintTenths(seconds) + ":" + PrintTenths(bar)];
    }
    assert words == PrintSteps(BlockSteps(block));
    text := Joined(words);
  }

  method EncodeProfile(text: string) returns (block: Result<seq<Byte>, ProfileError>)
    ensures block.Err? <==> StepsOf(text).Err?
    ensures block.Err? ==> block.error == StepsOf(text).error
    ensures block.Ok? ==> |StepsOf(text).value| <= PROFILE_STEPS && Holds(block.value, Padded(StepsOf(text).value))
    ensures block.Ok? ==> IsLaidOut(block.value, StepsOf(text).value)
  {
    hide ParseStep, Words, Laid, Holds;
    var words := Words(text);
    if |words| > PROFILE_STEPS {
      return Err(TooManySteps);
    }
    var steps: seq<Step>, times: seq<Byte>, pressures: seq<Byte> := [], [], [];
    assert words[0..] == words;
    PrependNone(ParseSteps(words));
    LaidEmpty();
    for i := 0 to |words|
      invariant |steps| == i
      invariant ParseSteps(words) == Prepended(steps, ParseSteps(words[i..]))
      invariant Laid(steps, times, pressures)
    {
      var parsed := ParseStep(words[i]);
      if parsed.Err? {
        return Err(parsed.error);
      }
      var step := parsed.value;
      ParsedStepInRange(words[i]);
      LaidGrows(steps, times, pressures, step);
      times := times + [step.seconds % 256, step.seconds / 256 % 256];
      pressures := pressures + [step.bar];
      assert words[i..][1..] == words[i + 1..];
      PrependOne(steps, step, ParseSteps(words[i + 1..]));
      steps := steps + [step];
    }
    assert steps + [] == steps;
    ghost var given := steps;
    for i := |words| to PROFILE_STEPS
      invariant steps == given + seq(i - |words|, _ => NO_STEP)
      invariant Laid(steps, times, pressures)
    {
      LaidGrows(steps, times, pressures, NO_STEP);
      times := times + [0, 0];
      pressures := pressures + [0];
      steps := steps + [NO_STEP];
    }
    LaidOutBlock(steps, times, pressures);
    HeldIsLaidOut(times + pressures, given);
    block := Ok(times + pressures);
  }

  lemma PrependNone(rest: Result<seq<Step>, ProfileError>)
    ensures Prepended([], rest) == rest
  {
    if rest.Ok? {
      assert [] + rest.value == rest.value;
    }
  }

  lemma PrependOne(steps: seq<Step>, step: Step, rest: Result<seq<Step>, ProfileError>)
    ensures Prepended(steps + [step], rest) == Prepended(steps, Prepended([step], rest))
  {
    if rest.Ok? {
      assert steps + [step] + rest.value == steps + ([step] + rest.value);
    }
  }

  /** The two byte lists the encoder grows hold these steps. */
  ghost predicate Laid(steps: seq<Step>, times: seq<Byte>, pressures: seq<Byte>) {
    && |times| == 2 * |steps| && |pressures| == |steps|
    && (forall i :: 0 <= i < |steps| ==>
          steps[i] == Step(times[2 * i] as int + 256 * times[2 * i + 1] as int, pressures[i]))
  }

  lemma LaidEmpty()
    ensures Laid([], [], [])
  {
  }

  lemma LaidGrows(steps: seq<Step>, times: seq<Byte>, pressures: seq<Byte>, step: Step)
    requires Laid(steps, times, pressures) && InRange(step)
    ensures Laid(steps + [step], times + [step.seconds % 256, step.seconds / 256 % 256], pressures + [step.bar])
  {
    var more := times + [step.seconds % 256, step.seconds / 256 % 256];
    var n := |steps|;
    forall i | 0 <= i <= n
      ensures (steps + [step])[i]
           == Step(more[2 * i] as int + 256 * more[2 * i + 1] as int, (pressures + [step.bar])[i])
    {
      if i < n {
        assert steps[i] == Step(times[2 * i] as int + 256 * times[2 * i + 1] as int, pressures[i]);
      }
    }
  }

  lemma LaidOutBlock(steps: seq<Step>, times: seq<Byte>, pressures: seq<Byte>)
    requires Laid(steps, times, pressures) && |steps| == PROFILE_STEPS
    ensures Holds(times + pressures, steps)
  {
    var block := times + pressures;
    assert forall i :: 0 <= i < PROFILE_STEPS ==> block[10 + i] == pressures[i];
    assert BlockSteps(block) == steps;
  }

  lemma ParsedStepInRange(word: string)
    ensures ParseStep(word).Ok? ==> InRange(ParseStep(word).value)
  {
    hide ParseTenths, Find;
  }

  // -- round trips -------------------------------------------------------------------------

  predicate IsDigits(s: string) {
    forall i :: 0 <= i < |s| ==> '0' <= s[i] <= '9'
  }

  /** Digits and points only: no space and no colon. */
  predicate IsNumeral(s: string) {
    forall i :: 0 <= i < |s| ==> '0' <= s[i] <= '9' || s[i] == '.'
  }

  lemma {:induction false} DecimalParses(n: nat)
    ensures Decimal(n) != "" && ParseDecimal(Decimal(n)) == Some(n)
    ensures IsDigits(Decimal(n))
  {
    if n >= 10 {
      DecimalParses(n / 10);
      assert Decimal(n)[..|Decimal(n)| - 1] == Decimal(n / 10);
    }
  }

  lemma FindFirst(s: string, c: char, i: nat)
    requires i <= |s| && (i < |s| ==> s[i] == c) && forall j :: 0 <= j < i ==> s[j] != c
    ensures Find(s, c) == i
  {
  }

  lemma TenthsParse(n: nat)
    ensures ParseTenths(PrintTenths(n)) == Some(n)
    ensures PrintTenths(n) != "" && IsNumeral(PrintTenths(n))
  {
    hide Decimal, ParseDecimal, ParseTenths, Digit;
    var whole, high, low := Decimal(n / 10), n / 10, n % 10;
    assert n == 10 * high + low;
    DecimalParses(high);
    if low == 0 {
      PointAtEnd(whole);
    } else {
      DigitIsDecimal(low);
      DecimalParses(low);
      WholeAndFraction(whole, Digit(low), high, low);
      NumeralOfParts(whole, Digit(low));
    }
  }

  lemma NumeralOfParts(whole: string, digit: char)
    requires IsDigits(whole) && IsDigits([digit])
    ensures IsNumeral(whole + "." + [digit])
  {
    assert [digit][0] == digit;
  }

  lemma DigitIsDecimal(n: nat)
    requires n < 10
    ensures Decimal(n) == [Digit(n)]
  {
  }

  lemma WholeAndFraction(whole: string, digit: char, high: nat, low: nat)
    requires whole != "" && IsDigits(whole) && ParseDecimal(whole) == Some(high) && ParseDecimal([digit]) == Some(low)
    ensures ParseTenths(whole + "." + [digit]) == Some(10 * high + low)
  {
    hide ParseDecimal;
    var text := whole + "." + [digit];
    FindFirst(text, '.', |whole|);
    assert text[..|whole|] == whole && text[|whole| + 1..] == [digit];
  }

  lemma StepParses(step: Step)
    ensures ParseStep(PrintStep(step)).Ok? <==> InRange(step)
    ensures InRange(step) ==> ParseStep(PrintStep(step)) == Ok(step)
    ensures IsWord(PrintStep(step))
  {
    hide PrintTenths, ParseTenths;
    var left, right := PrintTenths(step.seconds), PrintTenths(step.bar);
    TenthsParse(step.seconds);
    TenthsParse(step.bar);
    FindFirst(PrintStep(step), ':', |left|);
    assert PrintStep(step)[..|left|] == left && PrintStep(step)[|left| + 1..] == right;
  }

  predicate IsWord(w: string) {
    w != "" && forall i :: 0 <= i < |w| ==> !IsSpace(w[i])
  }

  lemma WordLengthIs(s: string, n: nat)
    requires n <= |s| && (forall j :: 0 <= j < n ==> !IsSpace(s[j])) && (n < |s| ==> IsSpace(s[n]))
    ensures WordLength(s) == n
  {
  }

  lemma {:induction false} WordsOfJoined(words: seq<string>)
    requires forall w :: w in words ==> IsWord(w)
    ensures Words(Joined(words)) == words
  {
    if words != [] {
      var w, text := words[0], Joined(words);
      assert IsWord(w);
      WordsOfJoined(words[1..]);
      WordLengthIs(text, |w|);
      assert text[0] == w[0] && text[..|w|] == w;
      if |words| > 1 {
        assert text[|w|..][1..] == Joined(words[1..]);
      }
    }
  }

  lemma {:induction false} StepsParse(steps: seq<Step>)
    ensures ParseSteps(PrintSteps(steps)).Ok? <==> forall s :: s in steps ==> InRange(s)
    ensures ParseSteps(PrintSteps(steps)).Ok? ==> ParseSteps(PrintSteps(steps)).value == steps
  {
    hide PrintStep, ParseStep, InRange;
    if steps != [] {
      StepParses(steps[0]);
      StepsParse(steps[1..]);
      assert PrintSteps(steps)[0] == PrintStep(steps[0]);
      assert PrintSteps(steps)[1..] == PrintSteps(steps[1..]);
      assert steps == [steps[0]] + steps[1..];
    }
  }

  /** Printing any steps and reading the text back gives the steps, exactly when every one is in range. */
  lemma PrintedStepsReadBack(steps: seq<Step>)
    requires |steps| <= PROFILE_STEPS
    ensures StepsOf(Joined(PrintSteps(steps))).Ok? <==> forall s :: s in steps ==> InRange(s)
    ensures StepsOf(Joined(PrintSteps(steps))).Ok? ==> StepsOf(Joined(PrintSteps(steps))).value == steps
  {
    hide PrintStep, ParseSteps, InRange;
    var words := PrintSteps(steps);
    forall w | w in words ensures IsWord(w) {
      var i :| 0 <= i < |words| && words[i] == w;
      StepParses(steps[i]);
    }
    WordsOfJoined(words);
    StepsParse(steps);
  }

  lemma BlocksAreDistinct(one: seq<Byte>, two: seq<Byte>)
    requires |one| == |two| == PROFILE_LEN
    requires BlockSteps(one) == BlockSteps(two)
    ensures one == two
  {
    forall k | 0 <= k < PROFILE_LEN ensures one[k] == two[k] {
      var i := if k < 10 then k / 2 else k - 10;
      assert BlockSteps(one)[i] == StepAt(one, i) && BlockSteps(two)[i] == StepAt(two, i);
    }
  }

  /** In range, byte for byte: little-endian tenths of a second, at most 600, and tenths of a bar, at most 100. */
  predicate BytesInRange(block: seq<Byte>)
    requires |block| == 15
  {
    forall i :: 0 <= i < 5 ==> StepBytesInRange(block, i)
  }

  predicate StepBytesInRange(block: seq<Byte>, i: nat)
    requires |block| == 15 && i < 5
  {
    block[2 * i] as int + 256 * block[2 * i + 1] as int <= 600 && block[10 + i] <= 100
  }

  /** encode(decode(block)) is the block itself, exactly for blocks whose times and pressures are in range. */
  method ReencodeDecoded(block: seq<Byte>) returns (again: Result<seq<Byte>, ProfileError>)
    requires |block| == 15
    ensures again == Ok(block) <==> BytesInRange(block)
    ensures again.Ok? ==> again.value == block
  {
    hide InRange, PrintSteps, Words, ParseSteps;
    var text := DecodeProfile(block);
    again := EncodeProfile(text);
    var steps := BlockSteps(block);
    PrintedStepsReadBack(steps);
    assert forall i :: 0 <= i < PROFILE_STEPS ==> steps[i] == StepAt(block, i) && steps[i] in steps;
    assert BytesInRange(block) <==> forall s :: s in steps ==> InRange(s) by { RangeByBytes(block); }
    if again.Ok? {
      assert Padded(steps) == steps;
      BlocksAreDistinct(again.value, block);
    }
  }

  lemma RangeByBytes(block: seq<Byte>)
    requires |block| == 15
    ensures BytesInRange(block) <==> forall s :: s in BlockSteps(block) ==> InRange(s)
  {
    var steps := BlockSteps(block);
    assert forall i :: 0 <= i < 5 ==> steps[i] == StepAt(block, i) && steps[i] in steps;
    if BytesInRange(block) {
      forall s | s in steps ensures InRange(s) {
        var i :| 0 <= i < 5 && steps[i] == s;
        assert StepAt(block, i) == s && StepBytesInRange(block, i);
      }
    } else {
      var i :| 0 <= i < 5 && !StepBytesInRange(block, i);
      assert !InRange(StepAt(block, i));
    }
  }

  /** Any accepted text, decoded from its own encoding, is the same steps padded with "0:0". */
  method DecodeEncoded(text: string) returns (again: string)
    requires StepsOf(text).Ok?
    ensures |StepsOf(text).value| <= PROFILE_STEPS
    ensures StepsOf(again) == Ok(Padded(StepsOf(text).value))
    ensures again == Joined(PrintSteps(Padded(StepsOf(text).value)))
    ensures StepsOf(text).value <= StepsOf(again).value && |StepsOf(again).value| == 5
    ensures forall i :: |StepsOf(text).value| <= i < 5 ==> StepsOf(again).value[i] == Step(0, 0)
  {
    hide PrintSteps, Words, InRange, BlockSteps;
    var block := EncodeProfile(text);
    again := DecodeProfile(block.value);
    ParsedInRange(Words(text));
    assert InRange(NO_STEP) by { InRangeZero(); }
    PrintedStepsReadBack(Padded(StepsOf(text).value));
  }

  lemma InRangeZero()
    ensures InRange(NO_STEP)
  {
  }

  lemma {:induction false} ParsedInRange(words: seq<string>)
    ensures ParseSteps(words).Ok? ==> forall s :: s in ParseSteps(words).value ==> InRange(s)
    ensures ParseSteps(words).Ok? ==> |ParseSteps(words).value| == |words|
  {
    hide ParseStep, InRange;
    if words != [] {
      ParsedStepInRange(words[0]);
      ParsedInRange(words[1..]);
    }
  }

  // -- which texts are accepted -----------------------------------------------------------

  /** A word of two numbers around one colon, at most 60 seconds and at most 10 bar, in tenths. */
  ghost predicate Denotes(word: string, seconds: string, bar: string, step: Step) {
    && word == seconds + ":" + bar && ':' !in seconds && ':' !in bar
    && ParseTenths(seconds) == Some(step.seconds) && step.seconds <= 600
    && ParseTenths(bar) == Some(step.bar) && step.bar <= 100
  }

  lemma WordAcceptedExactly(word: string, step: Step)
    ensures ParseStep(word) == Ok(step) <==> exists seconds, bar :: Denotes(word, seconds, bar, step)
  {
    hide ParseTenths;
    var colon := Find(word, ':');
    if colon < |word| {
      var seconds, bar := word[..colon], word[colon + 1..];
      assert word == seconds + ":" + bar;
      if ParseStep(word) == Ok(step) {
        assert Denotes(word, seconds, bar, step);
      }
    }
    if seconds, bar :| Denotes(word, seconds, bar, step) {
      FindFirst(word, ':', |seconds|);
      assert word[..|seconds|] == seconds && word[|seconds| + 1..] == bar;
    }
  }

  /** Why a word is refused, the first fault deciding: not a pair, not numbers, the time, the pressure. */
  lemma WordRefusedExactly(word: string, seconds: string, bar: string)
    requires ':' !in seconds && ':' !in bar
    ensures ':' !in word ==> ParseStep(word) == Err(NotAPair)
    ensures ParseStep(seconds + ":" + bar + ":" + word) == Err(NotAPair)
    ensures ParseStep(seconds + ":" + bar) ==
      match (ParseTenths(seconds), ParseTenths(bar))
      case (Some(s), Some(b)) =>
        if s > 600 then Err(TimeOutOfRange) else if b > 100 then Err(PressureOutOfRange) else Ok(Step(s, b))
      case _ => Err(NonNumeric)
  {
    hide ParseTenths;
    if ':' !in word {
      FindFirst(word, ':', |word|);
    }
    var pair, long := seconds + ":" + bar, seconds + ":" + bar + ":" + word;
    FindFirst(pair, ':', |seconds|);
    assert pair[..|seconds|] == seconds && pair[|seconds| + 1..] == bar;
    FindFirst(long, ':', |seconds|);
    assert long[|seconds| + 1..] == bar + ":" + word;
    assert (bar + ":" + word)[|bar|] == ':';
  }

  /** A text is accepted exactly when it has at most five words and each is accepted; its steps are theirs in order. */
  lemma TextAcceptedExactly(text: string)
    ensures StepsOf(text).Ok? <==> |Words(text)| <= 5 && forall w :: w in Words(text) ==> ParseStep(w).Ok?
    ensures StepsOf(text).Ok? ==>
      && |StepsOf(text).value| == |Words(text)|
      && forall i :: 0 <= i < |Words(text)| ==> ParseStep(Words(text)[i]) == Ok(StepsOf(text).value[i])
  {
    hide ParseStep, Words;
    StepsAcceptedExactly(Words(text));
  }

  lemma {:induction false} StepsAcceptedExactly(words: seq<string>)
    ensures ParseSteps(words).Ok? <==> forall w :: w in words ==> ParseStep(w).Ok?
    ensures ParseSteps(words).Ok? ==>
      && |ParseSteps(words).value| == |words|
      && forall i :: 0 <= i < |words| ==> ParseStep(words[i]) == Ok(ParseSteps(words).value[i])
  {
    hide ParseStep;
    if words != [] {
      StepsAcceptedExactly(words[1..]);
      assert words == [words[0]] + words[1..];
    }
  }

  /** Numbers by position: each digit on the right counts one, what is left of it ten times as much. */
  lemma DigitsByPosition(whole: string, digit: char)
    requires whole != "" && IsDigits(whole) && '0' <= digit <= '9'
    ensures ParseDecimal([digit]) == Some(digit as int - 48)
    ensures ParseDecimal(whole).Some?
    ensures ParseDecimal(whole + [digit]) == Some(10 * ParseDecimal(whole).value + (digit as int - 48))
  {
    DigitsParse(whole);
    assert (whole + [digit])[..|whole|] == whole;
  }

  /** And around the point: whole units before it, one digit of tenths after it, either side optional, not both. */
  lemma TenthsByPosition(whole: string, tenth: char)
    requires whole != "" && IsDigits(whole) && '0' <= tenth <= '9'
    ensures ParseDecimal(whole).Some?
    ensures ParseTenths(whole) == Some(10 * ParseDecimal(whole).value)
    ensures ParseTenths(whole + ".") == Some(10 * ParseDecimal(whole).value)
    ensures ParseTenths(whole + "." + [tenth]) == Some(10 * ParseDecimal(whole).value + (tenth as int - 48))
    ensures ParseTenths("." + [tenth]) == Some(tenth as int - 48)
    ensures ParseTenths(".").None?
  {
    DigitsParse(whole);
    DigitsByPosition(whole, tenth);
    hide ParseDecimal, ParseTenths;
    WholeAndFraction(whole, tenth, ParseDecimal(whole).value, tenth as int - 48);
    PointAtEnd(whole);
    PointFirst(tenth);
  }

  lemma PointFirst(tenth: char)
    requires '0' <= tenth <= '9'
    ensures ParseTenths("." + [tenth]) == Some(tenth as int - 48)
    ensures ParseTenths(".").None?
  {
    assert ParseDecimal([tenth]) == Some(tenth as int - 48);
    hide ParseDecimal;
    FindFirst("." + [tenth], '.', 0);
    FindFirst(".", '.', 0);
    assert ("." + [tenth])[..0] == "" && ("." + [tenth])[1..] == [tenth];
  }

  lemma PointAtEnd(whole: string)
    requires whole != "" && IsDigits(whole) && ParseDecimal(whole).Some?
    ensures ParseTenths(whole) == Some(10 * ParseDecimal(whole).value)
    ensures ParseTenths(whole + ".") == Some(10 * ParseDecimal(whole).value)
  {
    hide ParseDecimal;
    FindFirst(whole, '.', |whole|);
    FindFirst(whole + ".", '.', |whole|);
    assert (whole + ".")[..|whole|] == whole && (whole + ".")[|whole| + 1..] == "";
  }

  lemma {:induction false} DigitsParse(s: string)
    requires s != "" && IsDigits(s)
    ensures ParseDecimal(s).Some?
  {
    if |s| > 1 {
      DigitsParse(s[..|s| - 1]);
    }
  }

  /** What separates words, by code point. */
  lemma WhiteSpaceExactly(c: char)
    ensures IsSpace(c) <==>
      c as int in {9, 10, 11, 12, 13, 28, 29, 30, 31, 32, 133, 160, 5760, 8192, 8193, 8194, 8195, 8196, 8197, 8198,
                   8199, 8200, 8201, 8202, 8232, 8233, 8239, 8287, 12288}
  {
  }

  /** Splitting: white space in front is skipped, and a word ends at the next white space or at the end. */
  lemma SplittingExactly(space: char, word: string, rest: string)
    requires IsSpace(space) && IsWord(word)
    ensures Words("") == [] && Words([space] + rest) == Words(rest)
    ensures Words(word) == [word]
    ensures Words(word + [space] + rest) == [word] + Words(rest)
  {
    assert ([space] + rest)[1..] == rest;
    WordLengthIs(word, |word|);
    assert word[..|word|] == word && word[|word|..] == "";
    var text := word + [space] + rest;
    WordLengthIs(text, |word|);
    assert text[..|word|] == word && text[|word|..] == [space] + rest;
    assert text[0] == word[0];
  }

  // -- a block as the machine holds it ----------------------------------------------------

  /** Three steps, 3 s at 3 bar, 25 s at 9 bar and 60 s at 10 bar, low byte first, as text. */
  lemma KnownBlock()
    ensures var block: seq<Byte> := [30, 0, 250, 0, 88, 2, 0, 0, 0, 0, 30, 90, 100, 0, 0];
      Joined(PrintSteps(BlockSteps(block))) == "3:3 25:9 60:10 0:0 0:0"
  {
    hide PrintStep, Joined, BlockSteps;
    KnownSteps();
    KnownWords();
    JoinedFive("3:3", "25:9", "60:10", "0:0", "0:0");
  }

  lemma KnownSteps()
    ensures BlockSteps([30, 0, 250, 0, 88, 2, 0, 0, 0, 0, 30, 90, 100, 0, 0])
         == [Step(30, 30), Step(250, 90), Step(600, 100), NO_STEP, NO_STEP]
  {
  }

  lemma KnownWords()
    ensures PrintSteps([Step(30, 30), Step(250, 90), Step(600, 100), NO_STEP, NO_STEP])
         == ["3:3", "25:9", "60:10", "0:0", "0:0"]
  {
    WholeNumbers();
    hide PrintTenths;
    assert PrintStep(Step(30, 30)) == "3:3" && PrintStep(Step(250, 90)) == "25:9";
    assert PrintStep(Step(600, 100)) == "60:10" && PrintStep(NO_STEP) == "0:0";
  }

  lemma WholeNumbers()
    ensures PrintTenths(0) == "0" && PrintTenths(30) == "3" && PrintTenths(90) == "9"
    ensures PrintTenths(100) == "10" && PrintTenths(250) == "25" && PrintTenths(600) == "60"
    ensures PrintTenths(105) == "10.5"
  {
    assert Decimal(10) == Decimal(1) + "0" && Decimal(25) == Decimal(2) + "5" && Decimal(60) == Decimal(6) + "0";
  }

  lemma JoinedFive(a: string, b: string, c: string, d: string, e: string)
    ensures Joined([a, b, c, d, e]) == a + " " + (b + " " + (c + " " + (d + " " + e)))
  {
    assert Joined([e]) == e;
    assert [d, e][1..] == [e] && Joined([d, e]) == d + " " + e;
    assert [c, d, e][1..] == [d, e] && Joined([c, d, e]) == c + " " + (d + " " + e);
    assert [b, c, d, e][1..] == [c, d, e] && Joined([b, c, d, e]) == b + " " + (c + " " + (d + " " + e));
    assert [a, b, c, d, e][1..] == [b, c, d, e];
  }
}
