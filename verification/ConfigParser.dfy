/**
 * The fallback reader for the configuration file: nested "key: value" mappings by indentation.
 * Lines are strings; the nested dictionaries, which the reader fills in place through its stack, live in
 * an arena `dicts` and are referred to by their position in it.
 */
module ConfigParser {
  import opened Common
  import opened PythonText

  // ----- scalars -----

  datatype Scalar = Flag(b: bool) | Null | Numeric(number: Number) | Text(text: string)

  predicate IsQuote(c: char) {
    c == '\'' || c == '"'
  }

  /** The texts that stand for flags and for nothing, in any case. */
  function Keyword(raw: string): Option<Scalar> {
    var lowered := Lower(raw);
    if lowered == "true" then Some(Flag(true))
    else if lowered == "false" then Some(Flag(false))
    else if lowered == "null" || lowered == "~" || lowered == "" then Some(Null)
    else None
  }

  function ParseScalar(raw: string): Scalar {
    if Keyword(raw).Some? then Keyword(raw).value
    else match ParseNumber(raw)
      case Some(number) => Numeric(number)
      case None =>
        if |raw| >= 2 && raw[0] == raw[|raw| - 1] && IsQuote(raw[0]) then Text(raw[1..|raw| - 1])
        else Text(raw)
  }

  // ----- one line -----

  /** Everything before the first " #". */
  function CutComment(s: string): string {
    if |s| < 2 then s
    else if s[0] == ' ' && s[1] == '#' then ""
    else [s[0]] + CutComment(s[1..])
  }

  function LeadingBlanks(s: string): nat {
    if s != "" && s[0] == ' ' then 1 + LeadingBlanks(s[1..]) else 0
  }

  function FindColon(s: string): (k: nat)
    ensures k <= |s|
  {
    FindAny(s, {':'})
  }

  datatype Line = Blank | Broken | KeyValue(indent: nat, key: string, value: string)

  function ReadLine(line: string): Line {
    var content := RStrip(CutComment(line));
    if Strip(content) == "" || "#" <= LStrip(content) then Blank
    else
      var body := Strip(content);
      var colon := FindColon(body);
      var key := body[..colon];
      if colon == |body| || key == "" || "- " <= key then Broken
      else KeyValue(LeadingBlanks(content), key, Strip(body[colon + 1..]))
  }

  // ----- the stack and the dictionaries -----

  datatype Slot = Plain(scalar: Scalar) | Child(id: nat)

  datatype Entry = Entry(key: string, slot: Slot)

  datatype Frame = Frame(indent: int, id: nat)

  datatype State = State(dicts: seq<seq<Entry>>, stack: seq<Frame>)

  const START := State([[]], [Frame(-1, 0)])

  predicate HasKey(dict: seq<Entry>, key: string) {
    exists i | 0 <= i < |dict| :: dict[i].key == key
  }

  /** Assignment to a key: a known key keeps its place, a new one goes to the end. */
  function Put(dict: seq<Entry>, key: string, slot: Slot): (r: seq<Entry>)
    ensures !HasKey(dict, key) ==> r == dict + [Entry(key, slot)]
    ensures forall e | e in r :: e in dict || e.slot == slot
  {
    if dict == [] then [Entry(key, slot)]
    else if dict[0].key == key then [Entry(key, slot)] + dict[1..]
    else
      assert HasKey(dict[1..], key) ==> HasKey(dict, key);
      [dict[0]] + Put(dict[1..], key, slot)
  }

  /** Closing every block that is indented at least as far as the line. */
  function PopTo(stack: seq<Frame>, indent: int): seq<Frame> {
    if stack != [] && stack[|stack| - 1].indent >= indent then PopTo(stack[..|stack| - 1], indent) else stack
  }

  predicate Below(dict: seq<Entry>, low: nat, high: nat) {
    forall i | 0 <= i < |dict| && dict[i].slot.Child? :: low <= dict[i].slot.id < high
  }

  /** Every dictionary only holds younger ones, so the whole is a tree. */
  predicate Grounded(dicts: seq<seq<Entry>>) {
    forall k | 0 <= k < |dicts| :: Below(dicts[k], k + 1, |dicts|)
  }

  /** The sentinel at the bottom, indents and ids strictly increasing above it. */
  predicate StackOk(stack: seq<Frame>, count: nat) {
    && stack != [] && stack[0] == Frame(-1, 0)
    && (forall j, k | 0 <= j < k < |stack| :: stack[j].indent < stack[k].indent && stack[j].id < stack[k].id)
    && (forall k | 0 <= k < |stack| :: stack[k].id < count)
  }

  predicate Valid(st: State) {
    StackOk(st.stack, |st.dicts|) && Grounded(st.dicts)
  }

  function PutLine(st: State, indent: nat, key: string, value: string): State
    requires Valid(st)
  {
    PopKeepsBase(st.stack, |st.dicts|, indent);
    var stack, newId := PopTo(st.stack, indent), |st.dicts|;
    var parent := stack[|stack| - 1].id;
    if value != "" then
      State(st.dicts[parent := Put(st.dicts[parent], key, Plain(ParseScalar(value)))], stack)
    else
      State(st.dicts[parent := Put(st.dicts[parent], key, Child(newId))] + [[]], stack + [Frame(indent, newId)])
  }

  /** The sentinel is never popped: what stays is exactly the blocks indented less than the line. */
  lemma {:induction false} PopKeepsBase(stack: seq<Frame>, count: nat, indent: int)
    requires StackOk(stack, count) && indent > -1
    ensures var rest := PopTo(stack, indent);
      && StackOk(rest, count)
      && rest <= stack
      && (forall k | 0 <= k < |stack| :: stack[k].indent < indent <==> k < |rest|)
    decreases |stack|
  {
    if stack[|stack| - 1].indent >= indent {
      PopKeepsBase(stack[..|stack| - 1], count, indent);
    }
  }

  lemma PutLineValid(st: State, indent: nat, key: string, value: string)
    requires Valid(st)
    ensures Valid(PutLine(st, indent, key, value))
  {
    hide PopTo, Put, ParseScalar;
    PopKeepsBase(st.stack, |st.dicts|, indent);
  }

  // ----- the whole text -----

  datatype Parsed = Failed(line: nat) | Done(state: State)

  /** The lines one after the other, the first of them being number `at`; an unsupported line ends it. */
  function Feed(lines: seq<string>, at: nat, st: State): (r: Parsed)
    requires Valid(st)
    ensures r.Done? ==> Valid(r.state)
  {
    if lines == [] then Done(st)
    else match ReadLine(lines[0])
      case Blank => Feed(lines[1..], at + 1, st)
      case Broken => Failed(at)
      case KeyValue(indent, key, value) =>
        PutLineValid(st, indent, key, value);
        Feed(lines[1..], at + 1, PutLine(st, indent, key, value))
  }

  /** The nested mapping that an arena holds, seen from outside. */
  datatype Value = Scalar(scalar: Scalar) | Mapping(fields: Fields)

  datatype Fields = NoFields | Field(key: string, value: Value, rest: Fields)

  function Build(dicts: seq<seq<Entry>>, dict: seq<Entry>, low: nat): Fields
    requires Grounded(dicts) && Below(dict, low, |dicts|)
    decreases |dicts| - low, |dict|
  {
    if dict == [] then NoFields
    else
      var value := match dict[0].slot
        case Plain(scalar) => Value.Scalar(scalar)
        case Child(id) => Mapping(Build(dicts, dicts[id], id + 1));
      Field(dict[0].key, value, Build(dicts, dict[1..], low))
  }

  function Root(st: State): Fields
    requires Valid(st)
  {
    Build(st.dicts, st.dicts[0], 1)
  }

  datatype Config = Unsupported(line: nat) | Loaded(root: Fields)

  function ParseText(lines: seq<string>): Config {
    match Feed(lines, 1, START)
    case Failed(line) => Unsupported(line)
    case Done(st) => Loaded(Root(st))
  }

  /** One assignment: pop the blocks that the line closes, fill the dictionary on top, push the block it opens. */
  method Assign(st: State, indent: nat, key: string, value: string) returns (next: State)
    requires Valid(st)
    ensures next == PutLine(st, indent, key, value) && Valid(next)
  {
    hide ParseScalar, Put, Grounded, HasKey;
    PutLineValid(st, indent, key, value);
    PopKeepsBase(st.stack, |st.dicts|, indent);
    var dicts, stack := st.dicts, st.stack;
    while stack[|stack| - 1].indent >= indent
      invariant StackOk(stack, |dicts|)
      invariant PopTo(stack, indent) == PopTo(st.stack, indent)
      decreases |stack|
    {
      stack := stack[..|stack| - 1];
    }
    var parent := stack[|stack| - 1].id;
    if value != "" {
      dicts := dicts[parent := Put(dicts[parent], key, Plain(ParseScalar(value)))];
    } else {
      dicts := dicts[parent := Put(dicts[parent], key, Child(|dicts|))] + [[]];
      stack := stack + [Frame(indent, |dicts| - 1)];
    }
    return State(dicts, stack);
  }

  /** The loop over the lines. */
  method ParseSimpleYaml(lines: seq<string>) returns (config: Config)
    ensures config == ParseText(lines)
  {
    assert Valid(START);
    hide ReadLine, PutLine, Valid, Root;
    var st := START;
    var i := 0;
    while i < |lines|
      invariant i <= |lines| && Valid(st)
      invariant Feed(lines, 1, START) == Feed(lines[i..], i + 1, st)
    {
      assert lines[i..][1..] == lines[i + 1..];
      match ReadLine(lines[i]) {
        case Blank =>
        case Broken =>
          return Unsupported(i + 1);
        case KeyValue(indent, key, value) =>
          st := Assign(st, indent, key, value);
      }
      i := i + 1;
    }
    return Loaded(Root(st));
  }

  lemma {:induction false} FeedSplit(xs: seq<string>, ys: seq<string>, at: nat, st: State)
    requires Valid(st)
    ensures Feed(xs + ys, at, st) ==
      match Feed(xs, at, st)
      case Failed(line) => Failed(line)
      case Done(next) => Feed(ys, at + |xs|, next)
  {
    hide ReadLine, PutLine;
    if xs == [] {
      assert xs + ys == ys;
    } else {
      assert (xs + ys)[1..] == xs[1..] + ys;
      match ReadLine(xs[0]) {
        case Blank => FeedSplit(xs[1..], ys, at + 1, st);
        case Broken =>
        case KeyValue(indent, key, value) =>
          PutLineValid(st, indent, key, value);
          FeedSplit(xs[1..], ys, at + 1, PutLine(st, indent, key, value));
      }
    }
  }

  // ----- the assignments of a text -----

  datatype Assignment = Assignment(indent: nat, key: string, value: string)

  /** The lines that say something, in order. */
  function Assignments(lines: seq<string>): seq<Assignment> {
    if lines == [] then []
    else match ReadLine(lines[0])
      case KeyValue(indent, key, value) => [Assignment(indent, key, value)] + Assignments(lines[1..])
      case _ => Assignments(lines[1..])
  }

  function Run(ws: seq<Assignment>, st: State): (r: State)
    requires Valid(st)
    ensures Valid(r)
  {
    if ws == [] then st
    else
      PutLineValid(st, ws[0].indent, ws[0].key, ws[0].value);
      Run(ws[1..], PutLine(st, ws[0].indent, ws[0].key, ws[0].value))
  }

  lemma {:induction false} RunSplit(xs: seq<Assignment>, ys: seq<Assignment>, st: State)
    requires Valid(st)
    ensures Run(xs + ys, st) == Run(ys, Run(xs, st))
  {
    hide PutLine, Valid;
    if xs == [] {
      assert xs + ys == ys;
    } else {
      assert (xs + ys)[1..] == xs[1..] + ys;
      PutLineValid(st, xs[0].indent, xs[0].key, xs[0].value);
      RunSplit(xs[1..], ys, PutLine(st, xs[0].indent, xs[0].key, xs[0].value));
    }
  }

  lemma RunFirst(w: Assignment, ws: seq<Assignment>, st: State)
    requires Valid(st)
    ensures Valid(PutLine(st, w.indent, w.key, w.value))
    ensures Run([w] + ws, st) == Run(ws, PutLine(st, w.indent, w.key, w.value))
  {
    hide PutLine, Valid;
    PutLineValid(st, w.indent, w.key, w.value);
    assert ([w] + ws)[1..] == ws;
  }

  /** A text that is read at all is read as its assignments. */
  lemma {:induction false} FeedRuns(lines: seq<string>, at: nat, st: State)
    requires Valid(st)
    ensures var r := Feed(lines, at, st); r.Done? ==> r.state == Run(Assignments(lines), st)
  {
    hide ReadLine, PutLine, Valid;
    if lines != [] {
      match ReadLine(lines[0]) {
        case Blank => FeedRuns(lines[1..], at + 1, st);
        case Broken =>
        case KeyValue(indent, key, value) =>
          RunFirst(Assignment(indent, key, value), Assignments(lines[1..]), st);
          FeedRuns(lines[1..], at + 1, PutLine(st, indent, key, value));
      }
    }
  }

  /** Reading fails exactly when some line is unsupported, and names the first such line. */
  lemma {:induction false} FailsAtFirstBroken(lines: seq<string>, at: nat, st: State)
    requires Valid(st)
    ensures match Feed(lines, at, st)
            case Done(_) => forall j | 0 <= j < |lines| :: !ReadLine(lines[j]).Broken?
            case Failed(n) =>
              && at <= n < at + |lines| && ReadLine(lines[n - at]).Broken?
              && forall j | 0 <= j < n - at :: !ReadLine(lines[j]).Broken?
  {
    hide ReadLine, PutLine;
    if lines != [] && !ReadLine(lines[0]).Broken? {
      var rest := lines[1..];
      assert forall j | 0 < j < |lines| :: lines[j] == rest[j - 1];
      match ReadLine(lines[0]) {
        case Blank => FailsAtFirstBroken(rest, at + 1, st);
        case KeyValue(indent, key, value) =>
          PutLineValid(st, indent, key, value);
          FailsAtFirstBroken(rest, at + 1, PutLine(st, indent, key, value));
      }
    }
  }

  // ----- printing -----

  /** A configuration as written down: each block chooses how much deeper than its key it is indented. */
  datatype Tree = Leaf(text: string) | Block(deeper: nat, entries: Entries)

  datatype Entries = End | More(key: string, value: Tree, rest: Entries)

  function Blanks(n: nat): (r: string)
    ensures |r| == n
    ensures forall i | 0 <= i < n :: r[i] == ' '
  {
    if n == 0 then "" else " " + Blanks(n - 1)
  }

  /** What stands after the key: the value, if there is one. */
  function Tail(text: string): string {
    if text == "" then "" else " " + text
  }

  function Body(key: string, text: string): string {
    key + ":" + Tail(text)
  }

  function WriteLine(indent: nat, key: string, text: string): string {
    Blanks(indent) + Body(key, text)
  }

  function Write(entries: Entries, indent: nat): seq<string> {
    match entries
    case End => []
    case More(key, Leaf(text), rest) => [WriteLine(indent, key, text)] + Write(rest, indent)
    case More(key, Block(deeper, inner), rest) =>
      [WriteLine(indent, key, "")] + Write(inner, indent + deeper) + Write(rest, indent)
  }

  /** The assignments of the written tree. */
  function Flatten(entries: Entries, indent: nat): seq<Assignment> {
    match entries
    case End => []
    case More(key, Leaf(text), rest) => [Assignment(indent, key, text)] + Flatten(rest, indent)
    case More(key, Block(deeper, inner), rest) =>
      [Assignment(indent, key, "")] + Flatten(inner, indent + deeper) + Flatten(rest, indent)
  }

  /** What the written tree means: texts become scalars, blocks become mappings. */
  function Meaning(entries: Entries): Fields {
    match entries
    case End => NoFields
    case More(key, Leaf(text), rest) => Field(key, Value.Scalar(ParseScalar(text)), Meaning(rest))
    case More(key, Block(_, inner), rest) => Field(key, Mapping(Meaning(inner)), Meaning(rest))
  }

  predicate NoComment(s: string) {
    forall i | 0 <= i < |s| - 1 :: !(s[i] == ' ' && s[i + 1] == '#')
  }

  /** Text that survives on a line: no blanks around it, no comment in it, not a comment itself. */
  predicate SimpleText(s: string) {
    Trimmed(s) && NoComment(s) && s[0] != '#'
  }

  /** A key is such text without a colon, and not a list item. */
  predicate SimpleKey(s: string) {
    SimpleText(s) && ':' !in s && !("- " <= s)
  }

  predicate KeyAmong(entries: Entries, key: string) {
    entries.More? && (entries.key == key || KeyAmong(entries.rest, key))
  }

  /** Keys distinct within their block; no empty texts; every block strictly deeper than its key. */
  predicate Proper(entries: Entries) {
    match entries
    case End => true
    case More(key, value, rest) =>
      && !KeyAmong(rest, key) && Proper(rest)
      && match value
         case Leaf(text) => text != ""
         case Block(deeper, inner) => deeper >= 1 && Proper(inner)
  }

  /** Simple keys, distinct within their block; simple texts; every block strictly deeper than its key. */
  predicate Writable(entries: Entries) {
    match entries
    case End => true
    case More(key, value, rest) =>
      && SimpleKey(key) && !KeyAmong(rest, key) && Writable(rest)
      && match value
         case Leaf(text) => SimpleText(text)
         case Block(deeper, inner) => deeper >= 1 && Writable(inner)
  }

  // ----- reading one written line -----

  lemma {:induction false} CutNothing(s: string)
    requires NoComment(s)
    ensures CutComment(s) == s
  {
    if |s| >= 2 {
      forall i | 0 <= i < |s[1..]| - 1
        ensures !(s[1..][i] == ' ' && s[1..][i + 1] == '#')
      {
        assert s[1..][i] == s[i + 1] && s[1..][i + 1] == s[i + 2];
      }
      CutNothing(s[1..]);
      assert s == [s[0]] + s[1..];
    }
  }

  lemma {:induction false} LeadingBlanksOf(n: nat, body: string)
    requires body != "" && body[0] != ' '
    ensures LeadingBlanks(Blanks(n) + body) == n
  {
    if n == 0 {
      assert Blanks(0) + body == body;
    } else {
      assert (Blanks(n) + body)[1..] == Blanks(n - 1) + body;
      LeadingBlanksOf(n - 1, body);
    }
  }

  lemma {:induction false} LStripBlanks(n: nat, body: string)
    requires body != "" && !IsSpace(body[0])
    ensures LStrip(Blanks(n) + body) == body
  {
    if n == 0 {
      assert Blanks(0) + body == body;
    } else {
      assert (Blanks(n) + body)[1..] == Blanks(n - 1) + body;
      LStripBlanks(n - 1, body);
    }
  }

  lemma {:induction false} FindColonAfter(key: string, rest: string)
    requires ':' !in key
    ensures FindColon(key + ":" + rest) == |key|
  {
    var body := key + ":" + rest;
    assert body[|key|] == ':';
    assert forall i | 0 <= i < |key| :: body[i] == key[i] && key[i] in key;
  }

  lemma TailStrips(text: string)
    requires text == "" || SimpleText(text)
    ensures Strip(Tail(text)) == text
  {
    hide NoComment;
    if text != "" {
      var rest := Tail(text);
      assert rest[|rest| - 1] == text[|text| - 1] && rest[1..] == text;
      hide IsSpace;
      assert IsSpace(' ');
      assert RStrip(rest) == rest;
      assert LStrip(text) == text;
    }
  }

  lemma TailOfNothing()
    ensures Tail("") == ""
  {
  }

  lemma TailEnds(text: string)
    requires text != ""
    ensures Tail(text) != "" && Tail(text)[|Tail(text)| - 1] == text[|text| - 1]
  {
  }

  lemma BodyEnds(key: string, text: string)
    requires Trimmed(key) && (text == "" || Trimmed(text))
    ensures Trimmed(Body(key, text)) && Body(key, text)[0] == key[0]
  {
    assert !IsSpace(':');
    hide IsSpace, Tail;
    var body := Body(key, text);
    assert body[0] == key[0];
    if text == "" {
      TailOfNothing();
      assert body[|body| - 1] == ':';
    } else {
      TailEnds(text);
      assert body[|body| - 1] == Tail(text)[|Tail(text)| - 1];
    }
  }

  lemma BodySplits(key: string, text: string)
    requires ':' !in key
    ensures var body := Body(key, text);
      |body| > |key| && FindColon(body) == |key| && body[..|key|] == key && body[|key| + 1..] == Tail(text)
  {
    hide FindColon, Tail;
    FindColonAfter(key, Tail(text));
  }

  /** The content of a written line is all of it, and its body is what follows the indentation. */
  lemma LineStrips(indent: nat, key: string, text: string)
    requires SimpleKey(key) && (text == "" || SimpleText(text))
    ensures var line := WriteLine(indent, key, text);
      && RStrip(CutComment(line)) == line && Strip(line) == Body(key, text)
      && LStrip(line) == Body(key, text) && LeadingBlanks(line) == indent
  {
    LineHasNoComment(indent, key, text);
    CutNothing(WriteLine(indent, key, text));
    hide NoComment, CutComment, Trimmed, Body;
    BodyEnds(key, text);
    IndentStrips(indent, Body(key, text));
  }

  lemma IndentStrips(n: nat, body: string)
    requires Trimmed(body)
    ensures var line := Blanks(n) + body;
      RStrip(line) == line && Strip(line) == body && LStrip(line) == body && LeadingBlanks(line) == n
  {
    var line := Blanks(n) + body;
    assert IsSpace(' ');
    hide IsSpace, Blanks, LStrip, LeadingBlanks;
    assert line[|line| - 1] == body[|body| - 1];
    LStripBlanks(n, body);
    LeadingBlanksOf(n, body);
  }

  /** What is written on a line, and nothing else, is read back from it. */
  lemma ReadsWrittenLine(indent: nat, key: string, text: string)
    requires SimpleKey(key) && (text == "" || SimpleText(text))
    ensures ReadLine(WriteLine(indent, key, text)) == KeyValue(indent, key, text)
  {
    hide WriteLine, NoComment, LStrip, RStrip, Strip, CutComment, LeadingBlanks, FindColon, Body, Tail, IsSpace;
    LineStrips(indent, key, text);
    BodyEnds(key, text);
    BodySplits(key, text);
    TailStrips(text);
    assert !("#" <= Body(key, text));
  }

  lemma LineHasNoComment(indent: nat, key: string, text: string)
    requires SimpleKey(key) && (text == "" || SimpleText(text))
    ensures NoComment(WriteLine(indent, key, text))
  {
  }

  // ----- reading a written tree -----

  lemma {:induction false} PopTwice(stack: seq<Frame>, indent: int, deeper: int)
    requires indent <= deeper
    ensures PopTo(PopTo(stack, deeper), indent) == PopTo(stack, indent)
    decreases |stack|
  {
    if stack != [] && stack[|stack| - 1].indent >= deeper {
      PopTwice(stack[..|stack| - 1], indent, deeper);
    }
  }

  /** What is built from a dictionary depends only on the younger dictionaries. */
  lemma {:induction false} BuildFrame(dicts: seq<seq<Entry>>, later: seq<seq<Entry>>, dict: seq<Entry>,
                                      low: nat, lower: nat)
    requires Grounded(dicts) && Grounded(later) && |dicts| <= |later|
    requires lower <= low && Below(dict, low, |dicts|)
    requires forall k | low <= k < |dicts| :: later[k] == dicts[k]
    ensures Build(later, dict, lower) == Build(dicts, dict, low)
    decreases |dicts| - low, |dict|
  {
    if dict != [] {
      BuildFrame(dicts, later, dict[1..], low, lower);
      match dict[0].slot {
        case Plain(_) =>
        case Child(id) => BuildFrame(dicts, later, dicts[id], id + 1, id + 1);
      }
    }
  }

  /** Between two states only the dictionary `p` and new dictionaries differ, and `p` only gained entries. */
  ghost predicate Extends(st: State, next: State, p: nat) {
    && p < |st.dicts| <= |next.dicts|
    && (forall k | 0 <= k < |st.dicts| && k != p :: next.dicts[k] == st.dicts[k])
    && st.dicts[p] <= next.dicts[p]
  }

  function Added(st: State, next: State, p: nat): seq<Entry>
    requires Extends(st, next, p)
  {
    next.dicts[p][|st.dicts[p]|..]
  }

  /** The entries read at `indent` went to the dictionary `p`, and mean what was written. */
  ghost predicate Took(st: State, next: State, indent: nat, p: nat, entries: Entries) {
    && Valid(st) && Valid(next) && Extends(st, next, p)
    && PopTo(next.stack, indent) == PopTo(st.stack, indent)
    && Below(Added(st, next, p), |st.dicts|, |next.dicts|)
    && Build(next.dicts, Added(st, next, p), |st.dicts|) == Meaning(entries)
  }

  /** Where lines indented by `indent` go, while `p` is the innermost block that is indented less. */
  ghost predicate Open(st: State, indent: nat, p: nat) {
    && Valid(st)
    && PopTo(st.stack, indent) != [] && PopTo(st.stack, indent)[|PopTo(st.stack, indent)| - 1].id == p < |st.dicts|
  }

  lemma LeafJoins(st: State, last: State, key: string, text: string, rest: Entries, indent: nat, p: nat)
    requires Open(st, indent, p) && text != "" && !HasKey(st.dicts[p], key)
    requires Took(PutLine(st, indent, key, text), last, indent, p, rest)
    ensures Took(st, last, indent, p, More(key, Leaf(text), rest))
  {
    hide ParseScalar, PopTo, Grounded, StackOk, HasKey, Put;
    var next := PutLine(st, indent, key, text);
    PopTwice(st.stack, indent, indent);
    var entry := Entry(key, Plain(ParseScalar(text)));
    assert next.dicts[p] == st.dicts[p] + [entry];
    var added, all := Added(next, last, p), Added(st, last, p);
    assert all == [entry] + added;
    assert all[1..] == added;
  }

  /** The state once the line that opens a block has been read. */
  function Header(st: State, indent: nat, key: string): State
    requires Valid(st)
  {
    PutLine(st, indent, key, "")
  }

  lemma HeaderOpens(st: State, indent: nat, deeper: nat, key: string, p: nat)
    requires Open(st, indent, p) && deeper >= 1 && !HasKey(st.dicts[p], key)
    ensures var start, n := Header(st, indent, key), |st.dicts|;
      && Open(start, indent + deeper, n) && p < n && |start.dicts| == n + 1
      && start.dicts[n] == [] && start.dicts[p] == st.dicts[p] + [Entry(key, Child(n))]
      && (forall k | 0 <= k < n && k != p :: start.dicts[k] == st.dicts[k])
      && PopTo(PopTo(start.stack, indent + deeper), indent) == PopTo(st.stack, indent)
  {
    hide ParseScalar;
    PutLineValid(st, indent, key, "");
    var start := Header(st, indent, key);
    var base := PopTo(st.stack, indent);
    assert start.stack == base + [Frame(indent, |st.dicts|)];
    assert PopTo(start.stack, indent + deeper) == start.stack;
    assert start.stack[..|start.stack| - 1] == base;
    PopTwice(st.stack, indent, indent);
  }

  /** A dictionary that holds one block and then what came after it. */
  lemma BuildBlock(mid: State, last: State, key: string, n: nat, added: seq<Entry>)
    requires Valid(mid) && Valid(last) && n < |mid.dicts| <= |last.dicts|
    requires forall k | n <= k < |mid.dicts| :: last.dicts[k] == mid.dicts[k]
    requires Below(added, |mid.dicts|, |last.dicts|)
    ensures Build(last.dicts, [Entry(key, Child(n))] + added, n)
         == Field(key, Mapping(Build(mid.dicts, mid.dicts[n], n + 1)), Build(last.dicts, added, |mid.dicts|))
  {
    var all := [Entry(key, Child(n))] + added;
    assert all[1..] == added;
    BuildFrame(mid.dicts, last.dicts, mid.dicts[n], n + 1, n + 1);
    BuildFrame(last.dicts, last.dicts, added, |mid.dicts|, n);
  }

  lemma BlockJoins(st: State, mid: State, last: State, key: string, deeper: nat, inner: Entries,
                   rest: Entries, indent: nat, p: nat)
    requires Open(st, indent, p) && deeper >= 1 && !HasKey(st.dicts[p], key)
    requires Took(Header(st, indent, key), mid, indent + deeper, |st.dicts|, inner)
    requires Took(mid, last, indent, p, rest)
    ensures Took(st, last, indent, p, More(key, Block(deeper, inner), rest))
  {
    hide PopTo, Header, Build, HasKey, Grounded, StackOk;
    var start, n := Header(st, indent, key), |st.dicts|;
    HeaderOpens(st, indent, deeper, key, p);
    PopTwice(mid.stack, indent, indent + deeper);
    assert mid.dicts[n] == Added(start, mid, n);
    assert mid.dicts[p] == start.dicts[p];
    var added, all := Added(mid, last, p), Added(st, last, p);
    assert all == [Entry(key, Child(n))] + added;
    BuildBlock(mid, last, key, n, added);
  }

  /** None of the keys to be written is taken. */
  ghost predicate Clear(entries: Entries, dict: seq<Entry>) {
    forall key | KeyAmong(entries, key) :: !HasKey(dict, key)
  }

  lemma ClearRest(key: string, value: Tree, rest: Entries, dict: seq<Entry>, slot: Slot)
    requires Clear(More(key, value, rest), dict) && !KeyAmong(rest, key)
    ensures !HasKey(dict, key) && Clear(rest, dict + [Entry(key, slot)])
  {
    var entries := More(key, value, rest);
    assert KeyAmong(entries, key);
    forall k | KeyAmong(rest, k)
      ensures !HasKey(dict + [Entry(key, slot)], k)
    {
      assert KeyAmong(entries, k);
      assert !HasKey(dict, k);
    }
  }

  lemma LeafOpens(st: State, indent: nat, key: string, text: string, p: nat)
    requires Open(st, indent, p) && text != "" && !HasKey(st.dicts[p], key)
    ensures var next := PutLine(st, indent, key, text);
      && Open(next, indent, p)
      && next.dicts[p] == st.dicts[p] + [Entry(key, Plain(ParseScalar(text)))]
  {
    hide ParseScalar, PopTo;
    PutLineValid(st, indent, key, text);
    PopTwice(st.stack, indent, indent);
  }

  /** Running the assignments of a tree on the innermost block that is indented less puts exactly that tree there. */
  lemma {:induction false} RunsTree(entries: Entries, indent: nat, st: State, p: nat)
    requires Open(st, indent, p) && Proper(entries) && Clear(entries, st.dicts[p])
    ensures Took(st, Run(Flatten(entries, indent), st), indent, p, entries)
  {
    hide ParseScalar, PopTo, Valid, Took, Clear, PutLine, Run, Meaning, HasKey;
    var ws := Flatten(entries, indent);
    match entries
    case End =>
      TookNothing(st, indent, p);
    case More(key, Leaf(text), rest) =>
      var next := PutLine(st, indent, key, text);
      ClearRest(key, Leaf(text), rest, st.dicts[p], Plain(ParseScalar(text)));
      LeafOpens(st, indent, key, text, p);
      RunFirst(Assignment(indent, key, text), Flatten(rest, indent), st);
      RunsTree(rest, indent, next, p);
      LeafJoins(st, Run(ws, st), key, text, rest, indent, p);
    case More(key, Block(deeper, inner), rest) =>
      ClearRest(key, entries.value, rest, st.dicts[p], Child(|st.dicts|));
      HeaderOpens(st, indent, deeper, key, p);
      var start, body := Header(st, indent, key), Flatten(inner, indent + deeper);
      NothingYet(inner);
      RunsTree(inner, indent + deeper, start, |st.dicts|);
      var mid := Run(body, start);
      MidOpens(st, mid, indent, deeper, key, inner, p);
      RunsTree(rest, indent, mid, p);
      RunSplit(body, Flatten(rest, indent), start);
      RunFirst(Assignment(indent, key, ""), body + Flatten(rest, indent), st);
      assert ws == [Assignment(indent, key, "")] + (body + Flatten(rest, indent));
      BlockJoins(st, mid, Run(ws, st), key, deeper, inner, rest, indent, p);
  }

  lemma TookNothing(st: State, indent: nat, p: nat)
    requires Open(st, indent, p)
    ensures Run([], st) == st && Took(st, st, indent, p, End)
  {
  }

  lemma NothingYet(entries: Entries)
    ensures Clear(entries, [])
  {
  }

  lemma MidOpens(st: State, mid: State, indent: nat, deeper: nat, key: string, inner: Entries, p: nat)
    requires Open(st, indent, p) && deeper >= 1 && !HasKey(st.dicts[p], key)
    requires Took(Header(st, indent, key), mid, indent + deeper, |st.dicts|, inner)
    ensures Open(mid, indent, p) && mid.dicts[p] == st.dicts[p] + [Entry(key, Child(|st.dicts|))]
  {
    hide PopTo, Header, Valid, Build, Below, Meaning, HasKey;
    HeaderOpens(st, indent, deeper, key, p);
    PopTwice(mid.stack, indent, indent + deeper);
  }

  lemma {:induction false} AssignmentsSplit(xs: seq<string>, ys: seq<string>)
    ensures Assignments(xs + ys) == Assignments(xs) + Assignments(ys)
  {
    hide ReadLine;
    if xs == [] {
      assert xs + ys == ys;
    } else {
      assert (xs + ys)[1..] == xs[1..] + ys;
      AssignmentsSplit(xs[1..], ys);
    }
  }

  ghost predicate AllSupported(lines: seq<string>) {
    forall j | 0 <= j < |lines| :: !ReadLine(lines[j]).Broken?
  }

  lemma OneLine(line: string, w: Assignment)
    requires ReadLine(line) == KeyValue(w.indent, w.key, w.value)
    ensures Assignments([line]) == [w] && AllSupported([line])
  {
    hide ReadLine;
    assert [line][1..] == [];
  }

  /** The lines of a writable tree hold exactly its assignments. */
  lemma {:induction false} WriteFlattens(entries: Entries, indent: nat)
    requires Writable(entries)
    ensures Proper(entries) && AllSupported(Write(entries, indent))
    ensures Assignments(Write(entries, indent)) == Flatten(entries, indent)
  {
    hide ReadLine, SimpleKey, SimpleText, WriteLine;
    match entries
    case End =>
    case More(key, Leaf(text), rest) =>
      SimpleTextStands(text);
      ReadsWrittenLine(indent, key, text);
      OneLine(WriteLine(indent, key, text), Assignment(indent, key, text));
      WriteFlattens(rest, indent);
      AssignmentsSplit([WriteLine(indent, key, text)], Write(rest, indent));
    case More(key, Block(deeper, inner), rest) =>
      ReadsWrittenLine(indent, key, "");
      OneLine(WriteLine(indent, key, ""), Assignment(indent, key, ""));
      WriteFlattens(inner, indent + deeper);
      WriteFlattens(rest, indent);
      AssignmentsSplit([WriteLine(indent, key, "")], Write(inner, indent + deeper));
      AssignmentsSplit([WriteLine(indent, key, "")] + Write(inner, indent + deeper), Write(rest, indent));
  }

  lemma SimpleTextStands(text: string)
    requires SimpleText(text)
    ensures text != ""
  {
  }

  /** Feeding the lines of a tree to the innermost block that is indented less puts exactly that tree there. */
  lemma ReadsTree(entries: Entries, indent: nat, at: nat, st: State, p: nat)
    requires Open(st, indent, p) && Writable(entries) && Clear(entries, st.dicts[p])
    ensures var r := Feed(Write(entries, indent), at, st);
      r.Done? && Took(st, r.state, indent, p, entries)
  {
    hide ReadLine, Took, Clear, Feed, PopTo, HasKey;
    WriteFlattens(entries, indent);
    FailsAtFirstBroken(Write(entries, indent), at, st);
    FeedRuns(Write(entries, indent), at, st);
    RunsTree(entries, indent, st, p);
  }

  /** The text lays out the tree, its first block indented by `indent`, with blank lines anywhere. */
  ghost predicate Lays(lines: seq<string>, entries: Entries, indent: nat) {
    Proper(entries) && Assignments(lines) == Flatten(entries, indent)
  }

  /** Whatever tree a text lays out, that is what is read. */
  lemma LaidOutIsRead(lines: seq<string>, entries: Entries, indent: nat)
    requires AllSupported(lines) && Lays(lines, entries, indent)
    ensures ParseText(lines) == Loaded(Meaning(entries))
  {
    hide ReadLine, ParseScalar, Flatten, Assignments;
    NothingYet(entries);
    FailsAtFirstBroken(lines, 1, START);
    FeedRuns(lines, 1, START);
    RunsTree(entries, indent, START, 0);
    var last := Feed(lines, 1, START).state;
    assert last.dicts[0] == Added(START, last, 0);
  }

  /** Reading back a written configuration gives the configuration, however each block was indented. */
  lemma ReadsBack(entries: Entries, indent: nat)
    requires Writable(entries)
    ensures ParseText(Write(entries, indent)) == Loaded(Meaning(entries))
  {
    hide ParseText, Flatten, Write, Writable, Meaning;
    WriteFlattens(entries, indent);
    LaidOutIsRead(Write(entries, indent), entries, indent);
  }

  // ----- writing down a configuration value -----

  /** Quotes only where the plain text would be read as something else. */
  function ShowScalar(scalar: Scalar): string {
    match scalar
    case Flag(b) => if b then "true" else "false"
    case Null => "null"
    case Numeric(number) => ShowNumber(number)
    case Text(text) => if SimpleText(text) && ParseScalar(text) == scalar then text else "'" + text + "'"
  }

  /** Everything but a text with a comment in it, and a number that is not in lowest terms. */
  predicate Showable(scalar: Scalar) {
    match scalar
    case Text(text) => NoComment(text)
    case Numeric(number) => Canonical(number)
    case _ => true
  }

  lemma QuotesStand(text: string)
    requires NoComment(text)
    ensures SimpleText("'" + text + "'")
  {
    var quoted := "'" + text + "'";
    assert !IsSpace('\'');
    hide IsSpace;
    assert forall i | 0 <= i < |text| :: quoted[i + 1] == text[i];
  }

  lemma QuotedText(text: string)
    requires NoComment(text)
    ensures ParseScalar("'" + text + "'") == Text(text) && SimpleText("'" + text + "'")
  {
    hide Keyword, ParseNumber, NoComment, IsSpace;
    var quoted := "'" + text + "'";
    assert quoted[1..|quoted| - 1] == text;
    QuotesStand(text);
    QuoteIsNoKeyword(quoted);
    QuotesAreNoNumbers(quoted);
  }

  lemma QuoteIsNoKeyword(s: string)
    requires s != "" && IsQuote(s[0])
    ensures Keyword(s) == None
  {
    assert Lower(s)[0] == LowerChar(s[0]) == s[0];
    hide Lower;
  }

  lemma SolidStands(s: string)
    requires Solid(s)
    ensures SimpleText(s)
  {
    hide IsSpace;
  }

  /** Keywords end in e, l or ~. */
  lemma KeywordEnd(s: string)
    requires s != "" && (IsDigit(s[|s| - 1]) || s[|s| - 1] == 'f' || s[|s| - 1] == 'n')
    ensures Keyword(s) == None
  {
    var lowered := Lower(s);
    assert lowered[|s| - 1] == LowerChar(s[|s| - 1]) == s[|s| - 1];
    hide Lower;
  }

  /** A printed number is no keyword, and stands on a line as it is. */
  lemma NumberOnLine(number: Number)
    ensures SimpleText(ShowNumber(number)) && Keyword(ShowNumber(number)) == None
  {
    hide ShowNumber, Keyword, SimpleText, Solid;
    SolidNumber(number);
    SolidStands(ShowNumber(number));
    NumberEnd(number);
    KeywordEnd(ShowNumber(number));
  }

  /** Every flag, number and text that a line can hold is read back from its written form. */
  lemma ScalarReadsBack(scalar: Scalar)
    requires Showable(scalar)
    ensures ParseScalar(ShowScalar(scalar)) == scalar && SimpleText(ShowScalar(scalar))
  {
    match scalar
    case Flag(_) =>
      KeywordsStand();
    case Null =>
      KeywordsStand();
    case Numeric(number) =>
      NumberOnLine(number);
      NumberReadsBack(number);
    case Text(text) =>
      QuotedText(text);
  }

  lemma {:induction false} LowerAlready(s: string)
    requires s != "" && forall i | 0 <= i < |s| :: 'a' <= s[i] <= 'z'
    ensures Lower(s) == s && SimpleText(s)
  {
  }

  lemma KeywordsStand()
    ensures Keyword("true") == Some(Flag(true)) && Keyword("false") == Some(Flag(false))
    ensures Keyword("null") == Some(Null)
    ensures SimpleText("true") && SimpleText("false") && SimpleText("null")
  {
    hide Lower, SimpleText;
    LowerAlready("true");
    LowerAlready("false");
    LowerAlready("null");
  }

  lemma {:induction false} CutIsClean(s: string)
    ensures NoComment(CutComment(s))
    ensures CutComment(s) != "" ==> s != "" && CutComment(s)[0] == s[0]
  {
    if |s| >= 2 && !(s[0] == ' ' && s[1] == '#') {
      CutIsClean(s[1..]);
      var rest, cut := CutComment(s[1..]), CutComment(s);
      assert cut == [s[0]] + rest;
      forall i | 0 <= i < |cut| - 1
        ensures !(cut[i] == ' ' && cut[i + 1] == '#')
      {
        if i > 0 {
          assert cut[i] == rest[i - 1] && cut[i + 1] == rest[i];
        } else {
          assert cut[1] == rest[0] == s[1];
        }
      }
    }
  }

  lemma SliceIsClean(s: string, i: nat, j: nat)
    requires NoComment(s) && i <= j <= |s|
    ensures NoComment(s[i..j])
  {
    assert forall k | 0 <= k < j - i :: s[i..j][k] == s[i + k];
  }

  lemma {:induction false} StripsAreClean(s: string)
    requires NoComment(s)
    ensures NoComment(RStrip(s)) && NoComment(LStrip(s))
    decreases |s|
  {
    hide NoComment, IsSpace;
    if s != "" {
      SliceIsClean(s, 0, |s| - 1);
      SliceIsClean(s, 1, |s|);
      assert s[0..|s| - 1] == s[..|s| - 1] && s[1..|s|] == s[1..];
      StripsAreClean(s[..|s| - 1]);
      StripsAreClean(s[1..]);
    }
  }

  /** Nothing else can be written: whatever a line gives a key is a showable scalar. */
  lemma ReadIsShowable(line: string)
    ensures ReadLine(line).KeyValue? ==> Showable(ParseScalar(ReadLine(line).value))
  {
    hide NoComment, CutComment, RStrip, LStrip, FindColon, ParseScalar, Showable, LeadingBlanks;
    var content := RStrip(CutComment(line));
    CutIsClean(line);
    StripsAreClean(CutComment(line));
    StripsAreClean(content);
    StripsAreClean(RStrip(content));
    var body := Strip(content);
    if ReadLine(line).KeyValue? {
      var colon := FindColon(body);
      var rest := body[colon + 1..];
      SliceIsClean(body, colon + 1, |body|);
      assert body[colon + 1..|body|] == rest;
      StripsAreClean(rest);
      StripsAreClean(RStrip(rest));
      CleanIsShowable(Strip(rest));
    }
  }

  lemma CleanIsShowable(raw: string)
    requires NoComment(raw)
    ensures Showable(ParseScalar(raw))
  {
    hide ParseNumber, Lower;
  }

  predicate FieldAmong(fields: Fields, key: string) {
    fields.Field? && (fields.key == key || FieldAmong(fields.rest, key))
  }

  /** A mapping with simple, distinct keys and showable scalars, at every level. */
  predicate Storable(fields: Fields) {
    match fields
    case NoFields => true
    case Field(key, value, rest) =>
      && SimpleKey(key) && !FieldAmong(rest, key) && Storable(rest)
      && match value
         case Scalar(scalar) => Showable(scalar)
         case Mapping(inner) => Storable(inner)
  }

  function Written(fields: Fields): Entries {
    match fields
    case NoFields => End
    case Field(key, Scalar(scalar), rest) => More(key, Leaf(ShowScalar(scalar)), Written(rest))
    case Field(key, Mapping(inner), rest) => More(key, Block(2, Written(inner)), Written(rest))
  }

  lemma {:induction false} WrittenKeys(fields: Fields, key: string)
    ensures KeyAmong(Written(fields), key) <==> FieldAmong(fields, key)
  {
    hide ShowScalar;
    if fields.Field? {
      WrittenKeys(fields.rest, key);
    }
  }

  lemma {:induction false} WrittenMeans(fields: Fields)
    requires Storable(fields)
    ensures Writable(Written(fields)) && Meaning(Written(fields)) == fields
  {
    hide ShowScalar, ParseScalar, SimpleText, SimpleKey, Showable;
    match fields
    case NoFields =>
    case Field(key, Scalar(scalar), rest) =>
      ScalarReadsBack(scalar);
      WrittenKeys(rest, key);
      WrittenMeans(rest);
    case Field(key, Mapping(inner), rest) =>
      WrittenKeys(rest, key);
      WrittenMeans(inner);
      WrittenMeans(rest);
  }

  /** Every storable configuration survives being written and read. */
  lemma ConfigurationRoundTrip(fields: Fields)
    requires Storable(fields)
    ensures ParseText(Write(Written(fields), 0)) == Loaded(fields)
  {
    WrittenMeans(fields);
    ReadsBack(Written(fields), 0);
  }

  // ----- what is ignored, and what is not refused -----

  lemma {:induction false} NumberingOnly(lines: seq<string>, at: nat, from: nat, st: State)
    requires Valid(st)
    ensures var r, q := Feed(lines, at, st), Feed(lines, from, st);
      (r.Done? <==> q.Done?) && (r.Done? ==> r == q)
  {
    hide ReadLine, PutLine;
    if lines != [] {
      match ReadLine(lines[0]) {
        case Blank => NumberingOnly(lines[1..], at + 1, from + 1, st);
        case Broken =>
        case KeyValue(indent, key, value) =>
          PutLineValid(st, indent, key, value);
          NumberingOnly(lines[1..], at + 1, from + 1, PutLine(st, indent, key, value));
      }
    }
  }

  /** A blank or comment line may stand anywhere, at any indentation, without changing what is loaded. */
  lemma BlankLinesIgnored(before: seq<string>, blank: string, after: seq<string>)
    requires ReadLine(blank).Blank?
    ensures ParseText(before + [blank] + after).Loaded? <==> ParseText(before + after).Loaded?
    ensures ParseText(before + after).Loaded? ==>
      ParseText(before + [blank] + after) == ParseText(before + after)
  {
    hide ReadLine, Root;
    assert before + [blank] + after == before + ([blank] + after);
    assert ([blank] + after)[1..] == after;
    FeedSplit(before, [blank] + after, 1, START);
    FeedSplit(before, after, 1, START);
    var first := Feed(before, 1, START);
    if first.Done? {
      NumberingOnly(after, 1 + |before| + 1, 1 + |before|, first.state);
    }
  }
  // ----- what a line says -----

  lemma {:induction false} CutsAtComment(s: string, rest: string)
    requires NoComment(s)
    ensures CutComment(s + " #" + rest) == s
  {
    var all := s + " #" + rest;
    if s == "" {
      assert all[0] == ' ' && all[1] == '#';
    } else {
      assert all[0] == s[0] && all[1] == if |s| > 1 then s[1] else ' ';
      assert all[1..] == s[1..] + " #" + rest;
      SliceIsClean(s, 1, |s|);
      assert s[1..|s|] == s[1..] && s == [s[0]] + s[1..];
      CutsAtComment(s[1..], rest);
    }
  }

  /** A comment after a line does not change what the line says. */
  lemma CommentIgnored(line: string, rest: string)
    requires NoComment(line)
    ensures ReadLine(line + " #" + rest) == ReadLine(line)
  {
    hide NoComment, CutComment, RStrip, LStrip, Strip, FindColon, LeadingBlanks;
    CutsAtComment(line, rest);
    CutNothing(line);
  }

  /** Which values are flags, and which are nothing at all: five words in any case, and the empty text. */
  lemma KeywordsExactly(raw: string, b: bool)
    ensures ParseScalar(raw) == Flag(b) <==> Lower(raw) == if b then "true" else "false"
    ensures ParseScalar(raw) == Null <==> raw == "" || raw == "~" || Lower(raw) == "null"
  {
    hide ParseNumber;
    assert |Lower(raw)| == |raw|;
    if |raw| == 1 {
      assert Lower(raw)[0] == LowerChar(raw[0]);
      assert Lower(raw) == [Lower(raw)[0]] && raw == [raw[0]];
    }
  }

  /** A line of blanks says nothing, and neither does one that starts with a comment. */
  lemma SaysNothing(indent: nat, rest: string)
    ensures ReadLine(Blanks(indent)).Blank?
    ensures Trimmed("#" + rest) && NoComment("#" + rest) ==> ReadLine(Blanks(indent) + ("#" + rest)).Blank?
  {
    var blank := Blanks(indent);
    OnlyBlanks(indent);
    CutNothing(blank);
    if Trimmed("#" + rest) && NoComment("#" + rest) {
      var line := blank + ("#" + rest);
      if indent > 0 {
        CutsBefore(indent, rest);
        OnlyBlanks(indent - 1);
      } else {
        assert line == "#" + rest;
        CutNothing(line);
        IndentStrips(0, "#" + rest);
        assert Blanks(0) + ("#" + rest) == line;
      }
    }
  }

  lemma {:induction false} OnlyBlanks(n: nat)
    ensures NoComment(Blanks(n)) && RStrip(Blanks(n)) == "" && Strip("") == ""
  {
    assert IsSpace(' ');
    if n > 0 {
      OnlyBlanks(n - 1);
      assert Blanks(n)[..n - 1] == Blanks(n - 1);
      assert Blanks(n)[n - 1] == ' ';
    }
  }

  /** An indented comment is cut with the blank before it. */
  lemma CutsBefore(indent: nat, rest: string)
    requires indent > 0
    ensures CutComment(Blanks(indent) + ("#" + rest)) == Blanks(indent - 1)
  {
    OnlyBlanks(indent - 1);
    BlanksSplit(indent);
    assert Blanks(indent) + ("#" + rest) == Blanks(indent - 1) + " #" + rest;
    CutsAtComment(Blanks(indent - 1), rest);
  }

  lemma BlanksSplit(n: nat)
    requires n > 0
    ensures Blanks(n) == Blanks(n - 1) + " "
  {
  }

  /** A line without a colon, with nothing before it, or with a list item before it is not supported. */
  lemma NotSupported(indent: nat, body: string)
    requires SimpleText(body) && NoComment(Blanks(indent) + body)
    requires ':' !in body || body[0] == ':' || ("- " <= body && ':' !in body[..2])
    ensures ReadLine(Blanks(indent) + body).Broken?
  {
    var line := Blanks(indent) + body;
    CutNothing(line);
    hide NoComment, CutComment;
    IndentStrips(indent, body);
    hide Blanks, LStrip, RStrip, Strip, IsSpace, LeadingBlanks;
    assert !("#" <= body);
    ColonAt(body);
  }

  lemma ColonAt(body: string)
    ensures ':' !in body ==> FindColon(body) == |body|
    ensures body != "" && body[0] == ':' ==> FindColon(body) == 0
    ensures "- " <= body && ':' !in body[..2] && FindColon(body) < |body| ==> "- " <= body[..FindColon(body)]
  {
  }

  /** A key that is there already keeps its place and takes the new value. */
  lemma {:induction false} PutOverwrites(dict: seq<Entry>, key: string, slot: Slot, k: nat)
    requires k < |dict| && dict[k].key == key && forall i | 0 <= i < k :: dict[i].key != key
    ensures Put(dict, key, slot) == dict[k := Entry(key, slot)]
  {
    if k > 0 {
      PutOverwrites(dict[1..], key, slot, k - 1);
    }
  }
}
