/**
 Timer task types (timer.rs): the duration grammar of `timer:30s`, its rejection cases, and the
 upload-time check of a whole definition.
 */
module TimerTypes {
  import opened Wrappers
  import opened Text
  import opened ProcessModel
  import opened DecisionTasks

  const TIMER_PREFIX: string := "timer:"

  /** One more than the largest u64. */
  const U64_LIMIT: int := 0x1_0000_0000_0000_0000

  // ---------- Parsing ----------

  /** An optional plus sign is allowed, as in the standard integer parser. */
  function Unsigned(s: string): string {
    if s != "" && s[0] == '+' then s[1..] else s
  }

  /** Unsigned 64-bit decimal: at least one digit, no overflow. */
  function ParseU64(s: string): Option<nat> {
    var digits := Unsigned(s);
    if digits != "" && All(digits, IsDigit) && ValueOf(digits) < U64_LIMIT then Some(ValueOf(digits)) else None
  }

  function UnitSeconds(c: char): Option<nat> {
    match c
    case 's' => Some(1)
    case 'm' => Some(60)
    case 'h' => Some(3600)
    case 'd' => Some(86400)
    case _ => None
  }

  /** Seconds of a duration such as "30s"; None if malformed, zero, or too large. */
  function ParseDuration(text: string): Option<nat> {
    var s := ToAsciiLowercase(Trim(text));
    if s == "" then None else
    match UnitSeconds(s[|s| - 1])
    case None => None
    case Some(mult) =>
      match ParseU64(Trim(s[..|s| - 1]))
      case None => None
      case Some(n) => if n == 0 || n * mult >= U64_LIMIT then None else Some(n * mult)
  }

  /** None: not a timer. Some(Failure): a malformed timer. */
  function ParseTimer(taskType: string): Option<Result<nat, string>> {
    match StripPrefix(taskType, TIMER_PREFIX)
    case None => None
    case Some(rest) =>
      match ParseDuration(rest)
      case Some(d) => Some(Success(d))
      case None => Some(Failure(taskType))
  }

  // ---------- What parses, exactly ----------

  /** A written duration: padding, an optional plus, digits, padding, a unit letter, padding. */
  datatype Written = Written(before: string, plus: bool, digits: string, between: string, letter: char, after: string)

  function Number(w: Written): string {
    (if w.plus then "+" else "") + w.digits
  }

  function AsText(w: Written): string {
    w.before + (Number(w) + w.between + [w.letter]) + w.after
  }

  /** The writing is well formed, whatever its value. */
  ghost predicate Shaped(w: Written) {
    && All(w.before, IsWhitespace) && All(w.between, IsWhitespace) && All(w.after, IsWhitespace)
    && w.digits != "" && All(w.digits, IsDigit)
    && UnitSeconds(Lower(w.letter)).Some?
  }

  /** The writing is well formed and its value fits. */
  ghost predicate Fits(w: Written, seconds: nat) {
    && Shaped(w) && ValueOf(w.digits) < U64_LIMIT
    && seconds == ValueOf(w.digits) * UnitSeconds(Lower(w.letter)).value
    && 1 <= seconds < U64_LIMIT
  }

  lemma LowerKeepsClasses(c: char)
    ensures IsWhitespace(Lower(c)) <==> IsWhitespace(c)
    ensures IsDigit(Lower(c)) <==> IsDigit(c)
    ensures IsDigit(c) || IsWhitespace(c) || c == '+' ==> Lower(c) == c
    ensures Lower(c) == '+' ==> c == '+'
  {
  }

  /** The characters a number and its padding are made of; lower case leaves them alone. */
  predicate Plain(c: char) {
    IsWhitespace(c) || IsDigit(c) || c == '+'
  }

  lemma LowerPlain(s: string)
    requires All(s, Plain) || All(ToAsciiLowercase(s), Plain)
    ensures ToAsciiLowercase(s) == s
  {
    forall i | 0 <= i < |s| ensures Lower(s[i]) == s[i] {
      LowerKeepsClasses(s[i]);
      assert ToAsciiLowercase(s)[i] == Lower(s[i]);
    }
  }

  lemma LowerFront(s: string)
    requires s != ""
    ensures ToAsciiLowercase(s)[..|s| - 1] == ToAsciiLowercase(s[..|s| - 1])
  {
  }

  lemma NumberShape(w: Written)
    requires w.digits != "" && All(w.digits, IsDigit) && All(w.between, IsWhitespace)
    ensures Bare(Number(w), IsWhitespace) && All(Number(w) + w.between, Plain)
    ensures Unsigned(Number(w)) == w.digits
  {
    var n := Number(w);
    assert n[|n| - 1] == w.digits[|w.digits| - 1];
    if w.plus {
      assert n[1..] == w.digits;
    } else {
      assert n == w.digits;
    }
  }

  lemma WrittenTrims(w: Written)
    requires Shaped(w)
    ensures Trim(AsText(w)) == Number(w) + w.between + [w.letter]
  {
    var core := Number(w) + w.between + [w.letter];
    NumberShape(w);
    assert core[0] == Number(w)[0];
    TrimPadded(w.before, core, w.after, IsWhitespace);
  }

  lemma WrittenHead(w: Written)
    requires Shaped(w)
    ensures var s := ToAsciiLowercase(Number(w) + w.between + [w.letter]);
            && s[|s| - 1] == Lower(w.letter)
            && Trim(s[..|s| - 1]) == Number(w)
  {
    NumberShape(w);
    var n := Number(w);
    var head := n + w.between;
    var core := head + [w.letter];
    LowerFront(core);
    assert core[..|core| - 1] == head;
    LowerPlain(head);
    assert head == "" + n + w.between;
    TrimPadded("", n, w.between, IsWhitespace);
  }

  /** The text, trimmed and in lower case, ends in a unit of so many seconds, after a number. */
  ghost predicate Apart(text: string, n: nat, mult: nat) {
    var s := ToAsciiLowercase(Trim(text));
    && s != "" && UnitSeconds(s[|s| - 1]) == Some(mult)
    && ParseU64(Trim(s[..|s| - 1])) == if n < U64_LIMIT then Some(n) else None
  }

  /** What parsing comes to, once the text is taken apart. */
  lemma PartsParse(text: string, n: nat, mult: nat)
    requires Apart(text, n, mult) && 1 <= mult
    ensures ParseDuration(text) == if 1 <= n && n * mult < U64_LIMIT then Some(n * mult) else None
  {
    if 1 <= n { TimesAtLeast(n, mult); }
  }

  lemma NumberParses(w: Written)
    requires Shaped(w)
    ensures ParseU64(Number(w)) == if ValueOf(w.digits) < U64_LIMIT then Some(ValueOf(w.digits)) else None
  {
    NumberShape(w);
  }

  lemma WrittenApart(w: Written)
    requires Shaped(w)
    ensures Apart(AsText(w), ValueOf(w.digits), UnitSeconds(Lower(w.letter)).value)
  {
    WrittenTrims(w);
    WrittenHead(w);
    NumberParses(w);
  }

  /** Every well-formed writing parses to its value, whatever the case and the padding, unless the value is zero
      or does not fit. */
  lemma ShapedParses(w: Written)
    requires Shaped(w)
    ensures var seconds := ValueOf(w.digits) * UnitSeconds(Lower(w.letter)).value;
            ParseDuration(AsText(w)) == if 1 <= seconds < U64_LIMIT then Some(seconds) else None
  {
    WrittenApart(w);
    PartsParse(AsText(w), ValueOf(w.digits), UnitSeconds(Lower(w.letter)).value);
    ZeroProduct(ValueOf(w.digits), UnitSeconds(Lower(w.letter)).value);
  }

  lemma ZeroProduct(n: nat, mult: nat)
    requires 1 <= mult
    ensures 1 <= n * mult <==> 1 <= n
  {
    if 1 <= n { TimesAtLeast(n, mult); }
  }

  lemma WrittenParses(w: Written, seconds: nat)
    requires Fits(w, seconds)
    ensures ParseDuration(AsText(w)) == Some(seconds)
  {
    ShapedParses(w);
  }

  lemma ParsedShape(head: string) returns (l: string, n: string, r: string)
    requires ParseU64(Trim(ToAsciiLowercase(head))).Some?
    ensures head == l + n + r && n == Trim(ToAsciiLowercase(head))
    ensures All(l, IsWhitespace) && All(r, IsWhitespace)
  {
    var low := ToAsciiLowercase(head);
    n := Trim(low);
    l, r := TrimSplits(low, IsWhitespace);
    forall i | 0 <= i < |n| ensures Plain(n[i]) {
      if i > 0 && n[0] == '+' { assert n[i] == Unsigned(n)[i - 1]; }
    }
    assert All(l + n + r, Plain);
    LowerPlain(head);
  }

  /** The two halves of a text that parses. */
  lemma ParsedParts(text: string) returns (head: string, letter: char)
    requires ParseDuration(text).Some?
    ensures Trim(text) == head + [letter] && UnitSeconds(Lower(letter)).Some?
    ensures ParseU64(Trim(ToAsciiLowercase(head))).Some?
    ensures ParseDuration(text).value == ParseU64(Trim(ToAsciiLowercase(head))).value * UnitSeconds(Lower(letter)).value
    ensures 1 <= ParseDuration(text).value < U64_LIMIT
  {
    var core := Trim(text);
    head, letter := core[..|core| - 1], core[|core| - 1];
    LowerFront(core);
    TimesAtLeast(ParseU64(Trim(ToAsciiLowercase(head))).value, UnitSeconds(Lower(letter)).value);
  }

  lemma CoreSplits(text: string) returns (l: string, n: string, r: string, letter: char)
    requires ParseDuration(text).Some?
    ensures Trim(text) == (l + n + r) + [letter] && All(l, IsWhitespace) && All(r, IsWhitespace)
    ensures ParseU64(n).Some? && UnitSeconds(Lower(letter)).Some?
    ensures ParseDuration(text).value == ParseU64(n).value * UnitSeconds(Lower(letter)).value
    ensures 1 <= ParseDuration(text).value < U64_LIMIT
  {
    var head;
    head, letter := ParsedParts(text);
    l, n, r := ParsedShape(head);
  }

  /** Whatever parses was a well-formed writing of its value. */
  lemma ParsedWasWritten(text: string) returns (w: Written)
    requires ParseDuration(text).Some?
    ensures AsText(w) == text && Fits(w, ParseDuration(text).value)
  {
    var left, right := TrimSplits(text, IsWhitespace);
    var l, n, r, letter := CoreSplits(text);
    w := PutTogether(left, l, n, r, letter, right, Trim(text));
    assert ParseU64(n).value == ValueOf(w.digits);
  }

  lemma PutTogether(left: string, l: string, n: string, r: string, letter: char, right: string, core: string)
    returns (w: Written)
    requires ParseU64(n).Some? && core == (l + n + r) + [letter]
    requires All(left, IsWhitespace) && All(l, IsWhitespace) && All(r, IsWhitespace) && All(right, IsWhitespace)
    ensures AsText(w) == left + core + right
    ensures w.letter == letter && w.between == r && w.after == right && All(w.before, IsWhitespace)
    ensures w.digits == Unsigned(n)
  {
    w := Written(left + l, n[0] == '+', Unsigned(n), r, letter, right);
    assert n == Number(w);
    Assoc(l, n, r);
    Assoc(l, n + r, [letter]);
    Assoc(left, l, n + r + [letter]);
    Assoc(left + l, n + r + [letter], right);
    Assoc(left, core, right);
  }

  lemma Assoc(a: string, b: string, c: string)
    ensures (a + b) + c == a + (b + c)
  {
  }

  /** The accepted timer types and their durations, exactly. */
  lemma TimerGrammar(taskType: string, seconds: nat)
    ensures ParseTimer(taskType) == Some(Success(seconds)) <==>
            exists w: Written :: taskType == TIMER_PREFIX + AsText(w) && Fits(w, seconds)
  {
    if ParseTimer(taskType) == Some(Success(seconds)) {
      var rest := taskType[|TIMER_PREFIX|..];
      var w := ParsedWasWritten(rest);
      assert taskType == TIMER_PREFIX + AsText(w);
    }
    if w: Written :| taskType == TIMER_PREFIX + AsText(w) && Fits(w, seconds) {
      assert taskType[|TIMER_PREFIX|..] == AsText(w);
      WrittenParses(w, seconds);
    }
  }

  // ---------- Rendering and parsing ----------

  /** Rendering a fitting count and unit in decimal and parsing it back gives their product. */
  lemma DurationRoundTrip(n: nat, letter: char, before: string, between: string, after: string)
    requires UnitSeconds(Lower(letter)).Some? && 1 <= n && n * UnitSeconds(Lower(letter)).value < U64_LIMIT
    requires All(before, IsWhitespace) && All(between, IsWhitespace) && All(after, IsWhitespace)
    ensures ParseTimer(TIMER_PREFIX + (before + (Decimal(n) + between + [letter]) + after)) ==
            Some(Success(n * UnitSeconds(Lower(letter)).value))
  {
    var w := Written(before, false, Decimal(n), between, letter, after);
    var mult := UnitSeconds(Lower(letter)).value;
    TimesAtLeast(n, mult);
    assert Fits(w, n * mult);
    assert Number(w) == Decimal(n);
    assert AsText(w) == before + (Decimal(n) + between + [letter]) + after;
    TimerGrammar(TIMER_PREFIX + AsText(w), n * mult);
  }

  /** A count of one unit, rendered with the given letter in either case, lasts so many seconds; a zero count, or
      one past 64 bits, is refused. */
  ghost predicate Lasts(n: nat, letter: char, seconds: nat) {
    ParseTimer("timer:" + (Decimal(n) + [letter])) ==
      if 1 <= n && n * seconds <= 18446744073709551615 then Some(Success(n * seconds))
      else Some(Failure("timer:" + (Decimal(n) + [letter])))
  }

  /** How long a second, a minute, an hour and a day are. */
  lemma UnitsLast(n: nat, letter: char, seconds: nat)
    requires || (letter in {'s', 'S'} && seconds == 1)
             || (letter in {'m', 'M'} && seconds == 60)
             || (letter in {'h', 'H'} && seconds == 3600)
             || (letter in {'d', 'D'} && seconds == 86400)
    ensures Lasts(n, letter, seconds)
  {
    UnitSecondsAre(letter, seconds);
    var w := Written("", false, Decimal(n), "", letter, "");
    BareText(w, Decimal(n) + [letter]);
    ShapedParses(w);
    ZeroProduct(n, seconds);
    PrefixGoes(Decimal(n) + [letter]);
  }

  lemma UnitSecondsAre(letter: char, seconds: nat)
    requires || (letter in {'s', 'S'} && seconds == 1)
             || (letter in {'m', 'M'} && seconds == 60)
             || (letter in {'h', 'H'} && seconds == 3600)
             || (letter in {'d', 'D'} && seconds == 86400)
    ensures UnitSeconds(Lower(letter)) == Some(seconds)
  {
  }

  lemma BareText(w: Written, text: string)
    requires w.before == "" && !w.plus && w.between == "" && w.after == "" && text == w.digits + [w.letter]
    ensures AsText(w) == text
  {
  }

  lemma PrefixGoes(rest: string)
    ensures StripPrefix("timer:" + rest, TIMER_PREFIX) == Some(rest)
  {
    assert ("timer:" + rest)[|TIMER_PREFIX|..] == rest;
  }

  /** No other letter makes a timer. */
  lemma OtherUnitsFail(n: nat, letter: char)
    requires letter !in {'s', 'S', 'm', 'M', 'h', 'H', 'd', 'D'} && !IsWhitespace(letter)
    ensures ParseTimer("timer:" + (Decimal(n) + [letter])) == Some(Failure("timer:" + (Decimal(n) + [letter])))
  {
    var text := Decimal(n) + [letter];
    PrefixGoes(text);
    BareTrims(text);
    NoUnit(letter);
    assert ToAsciiLowercase(text)[|text| - 1] == Lower(letter);
  }

  lemma BareTrims(text: string)
    requires Bare(text, IsWhitespace)
    ensures Trim(text) == text
  {
    TrimPadded("", text, "", IsWhitespace);
    assert "" + text + "" == text;
  }

  lemma NoUnit(letter: char)
    requires letter !in {'s', 'S', 'm', 'M', 'h', 'H', 'd', 'D'}
    ensures UnitSeconds(Lower(letter)) == None
  {
  }

  /** Exactly the types with the prefix are meant as timers. */
  lemma TimersHavePrefix(taskType: string)
    ensures ParseTimer(taskType).Some? <==> "timer:" <= taskType
  {
  }

  lemma TimesAtLeast(n: nat, mult: nat)
    requires 1 <= n && 1 <= mult
    ensures 1 <= n <= n * mult
  {
  }

  // ---------- The upload check ----------

  datatype UploadError = NoTaskType(node: NodeId) | BadTimer(node: NodeId, taskType: string)

  predicate Malformed(taskType: string) {
    ParseTimer(taskType).Some? && ParseTimer(taskType).value.Failure?
  }

  /** The complaint a node earns, if any. */
  function Complaint(id: NodeId, n: Node): Option<UploadError> {
    match n.nodeType
    case ExternalTask(taskType) =>
      if taskType == "default" then Some(NoTaskType(id))
      else if Malformed(taskType) then Some(BadTimer(id, taskType))
      else None
    case _ => None
  }

  /** An external task with a type that is no timer, or a timer that parses; or any other node. */
  predicate Sound(t: NodeType) {
    t.ExternalTask? ==> t.taskType != "default" && ("timer:" <= t.taskType ==> ParseTimer(t.taskType).value.Success?)
  }

  /** Walks the nodes in any order and stops at the first complaint. */
  method ValidateDefinition(def: Definition) returns (r: Result<(), UploadError>)
    ensures r.Success? <==> forall k :: k in def.nodes ==> Complaint(k, def.nodes[k]) == None
    ensures r.Failure? ==> exists k :: k in def.nodes && Complaint(k, def.nodes[k]) == Some(r.error)
    ensures r.Success? <==> forall k :: k in def.nodes ==> Sound(def.nodes[k].nodeType)
    ensures r.Failure? ==> r.error.node in def.nodes && !Sound(def.nodes[r.error.node].nodeType)
    ensures r.Failure? && r.error.NoTaskType? ==> def.nodes[r.error.node].nodeType == ExternalTask("default")
    ensures r.Failure? && r.error.BadTimer? ==> def.nodes[r.error.node].nodeType == ExternalTask(r.error.taskType)
  {
    forall k | k in def.nodes ensures Complaint(k, def.nodes[k]) == None <==> Sound(def.nodes[k].nodeType) {}
    var rest := def.nodes.Keys;
    while rest != {}
      invariant rest <= def.nodes.Keys
      invariant forall k :: k in def.nodes && k !in rest ==> Complaint(k, def.nodes[k]) == None
    {
      var k :| k in rest;
      var c := Complaint(k, def.nodes[k]);
      if c.Some? {
        return Failure(c.value);
      }
      rest := rest - {k};
    }
    r := Success(());
  }

  /** The upload check covers what runs: if the drawn definition passes, then every external task of the
      rewritten definition has a type, and one that task creation accepts. */
  lemma UploadCoversRunTime(def: Definition, k: NodeId)
    requires forall j :: j in def.nodes ==> Complaint(j, def.nodes[j]) == None
    requires k in Rewrite(def).nodes && Rewrite(def).nodes[k].nodeType.ExternalTask?
    ensures k in def.nodes && Rewrite(def).nodes[k].nodeType == def.nodes[k].nodeType
    ensures Rewrite(def).nodes[k].nodeType.taskType != "default" && !Malformed(Rewrite(def).nodes[k].nodeType.taskType)
  {
    RewriteNodes(def, k);
    assert Complaint(k, def.nodes[k]) == None;
  }
}
