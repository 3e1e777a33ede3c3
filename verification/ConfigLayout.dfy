/** Which configuration texts the fallback reader reads as they are laid out, and which it silently misreads. */
module ConfigLayout {
  import opened Common
  import opened PythonText
  import opened ConfigParser

  // ----- exactly which texts are read as they are laid out -----

  /** Two assignments at one level, with nothing shallower between them. */
  ghost predicate SameBlock(ws: seq<Assignment>, s: nat, t: nat)
    requires s < |ws| && t < |ws|
  {
    s < t && ws[s].indent == ws[t].indent && forall k | s < k < t :: ws[k].indent >= ws[t].indent
  }

  /** A deeper line follows a key without a value. */
  ghost predicate OpensBlock(ws: seq<Assignment>, t: nat)
    requires 0 < t < |ws|
  {
    ws[t].indent > ws[t - 1].indent ==> ws[t - 1].value == ""
  }

  /** A shallower line returns to a block that is still open. */
  ghost predicate Returns(ws: seq<Assignment>, t: nat)
    requires 0 < t < |ws|
  {
    ws[t].indent < ws[t - 1].indent ==> exists s | 0 <= s < t :: SameBlock(ws, s, t)
  }

  /** Deeper lines open a block, shallower ones return to one, and no block repeats a key. */
  ghost predicate WellLaidOut(ws: seq<Assignment>) {
    && (forall t | 0 < t < |ws| :: OpensBlock(ws, t) && Returns(ws, t))
    && (forall s, t | 0 <= s < t < |ws| && SameBlock(ws, s, t) :: ws[s].key != ws[t].key)
  }

  // A tree is laid out well.

  /** Nothing is shallower than the block, and it starts at its own level. */
  ghost predicate Within(ws: seq<Assignment>, indent: nat) {
    && (forall k | 0 <= k < |ws| :: ws[k].indent >= indent)
    && (ws != [] ==> ws[0].indent == indent)
  }

  lemma {:induction false} FlattenWithin(entries: Entries, indent: nat)
    requires Proper(entries)
    ensures Within(Flatten(entries, indent), indent)
  {
    match entries
    case End =>
    case More(_, Leaf(_), rest) => FlattenWithin(rest, indent);
    case More(_, Block(deeper, inner), rest) =>
      FlattenWithin(inner, indent + deeper);
      FlattenWithin(rest, indent);
  }

  /** At its own level a block holds its keys and no others. */
  lemma {:induction false} LevelKeys(entries: Entries, indent: nat, t: nat)
    requires Proper(entries) && t < |Flatten(entries, indent)| && Flatten(entries, indent)[t].indent == indent
    ensures KeyAmong(entries, Flatten(entries, indent)[t].key)
  {
    match entries
    case More(_, Leaf(_), rest) =>
      if t > 0 {
        LevelKeys(rest, indent, t - 1);
      }
    case More(_, Block(deeper, inner), rest) =>
      FlattenWithin(inner, indent + deeper);
      var n := 1 + |Flatten(inner, indent + deeper)|;
      if t >= n {
        LevelKeys(rest, indent, t - n);
      }
  }

  /** Neighbours inside a part are neighbours in the whole. */
  lemma PartOpens(ws: seq<Assignment>, part: seq<Assignment>, at: nat, t: nat)
    requires at + |part| <= |ws| && ws[at..at + |part|] == part
    requires WellLaidOut(part) && at < t < at + |part|
    ensures OpensBlock(ws, t) && Returns(ws, t)
  {
    assert forall k | 0 <= k < |part| :: part[k] == ws[at + k];
    assert OpensBlock(part, t - at) && Returns(part, t - at);
    if ws[t].indent < ws[t - 1].indent {
      var s :| 0 <= s < t - at && SameBlock(part, s, t - at);
      assert SameBlock(ws, at + s, t);
    }
  }

  lemma PartKeys(ws: seq<Assignment>, part: seq<Assignment>, at: nat, s: nat, t: nat)
    requires at + |part| <= |ws| && ws[at..at + |part|] == part
    requires WellLaidOut(part) && at <= s < t < at + |part| && SameBlock(ws, s, t)
    ensures ws[s].key != ws[t].key
  {
    assert forall k | 0 <= k < |part| :: part[k] == ws[at + k];
    assert SameBlock(part, s - at, t - at);
  }

  /** A key, the deeper block under it, and the rest of its own block. */
  ghost predicate BlockOf(ws: seq<Assignment>, w: Assignment, inner: seq<Assignment>, rest: seq<Assignment>) {
    && ws == [w] + inner + rest && |ws| == 1 + |inner| + |rest|
    && ws[1..1 + |inner|] == inner && ws[1 + |inner|..1 + |inner| + |rest|] == rest
    && ws[0] == w
    && (forall k | 0 < k <= |inner| :: ws[k].indent > w.indent)
    && (forall k | |inner| < k < |ws| :: ws[k].indent >= w.indent && (ws[k].indent == w.indent ==> ws[k].key != w.key))
    && (rest != [] ==> ws[1 + |inner|].indent == w.indent)
    && (inner != [] ==> w.value == "")
    && WellLaidOut(inner) && WellLaidOut(rest)
  }

  lemma BlockLines(ws: seq<Assignment>, w: Assignment, inner: seq<Assignment>, rest: seq<Assignment>)
    requires BlockOf(ws, w, inner, rest)
    ensures forall t | 0 < t < |ws| :: OpensBlock(ws, t) && Returns(ws, t)
  {
    hide WellLaidOut, OpensBlock, Returns;
    var n := 1 + |inner|;
    forall t | 0 < t < |ws|
      ensures OpensBlock(ws, t) && Returns(ws, t)
    {
      if 1 < t < n {
        PartOpens(ws, inner, 1, t);
      } else if n < t {
        PartOpens(ws, rest, n, t);
      } else {
        Joins(ws, w, n, t);
      }
    }
  }

  lemma BlockKeys(ws: seq<Assignment>, w: Assignment, inner: seq<Assignment>, rest: seq<Assignment>)
    requires BlockOf(ws, w, inner, rest)
    ensures forall s, t | 0 <= s < t < |ws| && SameBlock(ws, s, t) :: ws[s].key != ws[t].key
  {
    hide WellLaidOut;
    var n := 1 + |inner|;
    forall s, t | 0 <= s < t < |ws| && SameBlock(ws, s, t)
      ensures ws[s].key != ws[t].key
    {
      if 1 <= s && t < n {
        PartKeys(ws, inner, 1, s, t);
      } else if n <= s {
        PartKeys(ws, rest, n, s, t);
      } else if 1 <= s {
        assert false;
      }
    }
  }

  lemma BlockLaidOut(w: Assignment, inner: seq<Assignment>, rest: seq<Assignment>)
    requires WellLaidOut(inner) && WellLaidOut(rest) && Within(rest, w.indent)
    requires inner != [] ==> w.value == "" && inner[0].indent > w.indent && Within(inner, inner[0].indent)
    requires forall t | 0 <= t < |rest| && rest[t].indent == w.indent :: rest[t].key != w.key
    ensures WellLaidOut([w] + inner + rest)
  {
    hide WellLaidOut, OpensBlock, Returns, SameBlock;
    var ws, n := [w] + inner + rest, 1 + |inner|;
    assert ws[1..n] == inner && ws[n..n + |rest|] == rest;
    assert forall k | 0 < k < n :: ws[k] == inner[k - 1];
    assert forall k | n <= k < |ws| :: ws[k] == rest[k - n];
    assert BlockOf(ws, w, inner, rest);
    hide BlockOf;
    BlockLines(ws, w, inner, rest);
    BlockKeys(ws, w, inner, rest);
    IsWellLaidOut(ws);
  }

  lemma IsWellLaidOut(ws: seq<Assignment>)
    requires forall t | 0 < t < |ws| :: OpensBlock(ws, t) && Returns(ws, t)
    requires forall s, t | 0 <= s < t < |ws| && SameBlock(ws, s, t) :: ws[s].key != ws[t].key
    ensures WellLaidOut(ws)
  {
    hide OpensBlock, Returns, SameBlock;
  }

  /** The first line under a key, and the first line after the block under it. */
  lemma Joins(ws: seq<Assignment>, w: Assignment, n: nat, t: nat)
    requires 0 < t < |ws| && (t == 1 || t == n) && 1 <= n && ws[0] == w
    requires forall k | 0 <= k < |ws| :: ws[k].indent >= w.indent
    requires n < |ws| ==> ws[n].indent == w.indent
    requires 1 < n ==> w.value == ""
    ensures OpensBlock(ws, t) && Returns(ws, t)
  {
    if t == n {
      assert SameBlock(ws, 0, t);
    }
  }

  lemma {:induction false} TreesAreLaidOut(entries: Entries, indent: nat)
    requires Proper(entries)
    ensures WellLaidOut(Flatten(entries, indent))
  {
    hide WellLaidOut;
    match entries
    case End =>
      NothingLaidOut();
    case More(key, value, rest) =>
      TreesAreLaidOut(rest, indent);
      FlattenWithin(rest, indent);
      RestKeys(key, rest, indent);
      if value.Block? {
        TreesAreLaidOut(value.entries, indent + value.deeper);
        FlattenWithin(value.entries, indent + value.deeper);
        BlockLaidOut(Assignment(indent, key, ""), Flatten(value.entries, indent + value.deeper), Flatten(rest, indent));
      } else {
        NothingLaidOut();
        BlockLaidOut(Assignment(indent, key, value.text), [], Flatten(rest, indent));
        assert [Assignment(indent, key, value.text)] + [] == [Assignment(indent, key, value.text)];
      }
  }

  lemma NothingLaidOut()
    ensures WellLaidOut([])
  {
  }

  lemma RestKeys(key: string, rest: Entries, indent: nat)
    requires Proper(rest) && !KeyAmong(rest, key)
    ensures var ws := Flatten(rest, indent);
      forall t | 0 <= t < |ws| && ws[t].indent == indent :: ws[t].key != key
  {
    var ws := Flatten(rest, indent);
    forall t | 0 <= t < |ws| && ws[t].indent == indent
      ensures ws[t].key != key
    {
      LevelKeys(rest, indent, t);
    }
  }

  // And whatever is laid out well is the layout of a tree.

  /** Where the lines deeper than `indent` end. */
  function BlockEnd(ws: seq<Assignment>, indent: nat, i: nat, hi: nat): (j: nat)
    requires i <= hi <= |ws|
    ensures i <= j <= hi
    ensures forall k | i <= k < j :: ws[k].indent > indent
    ensures j < hi ==> ws[j].indent <= indent
    decreases hi - i
  {
    if i < hi && ws[i].indent > indent then BlockEnd(ws, indent, i + 1, hi) else i
  }

  /** Nothing in a stretch is shallower than its first line, if it lies above everything before it. */
  lemma {:induction false} StretchWithin(ws: seq<Assignment>, lo: nat, hi: nat)
    requires WellLaidOut(ws) && lo < hi <= |ws|
    requires lo == 0 || forall k | lo <= k < hi :: ws[lo - 1].indent < ws[k].indent
    ensures forall k | lo <= k < hi :: ws[k].indent >= ws[lo].indent
    decreases hi
  {
    if lo < hi - 1 {
      StretchWithin(ws, lo, hi - 1);
      var t := hi - 1;
      assert Returns(ws, t);
      if ws[t].indent < ws[lo].indent {
        var s :| 0 <= s < t && SameBlock(ws, s, t);
        assert false;
      }
    }
  }

  /** The tree of the stretch `lo..hi` of one block. */
  function TreeOf(ws: seq<Assignment>, lo: nat, hi: nat): Entries
    requires lo <= hi <= |ws|
    decreases hi - lo
  {
    if lo == hi then End
    else
      var w := ws[lo];
      var j := BlockEnd(ws, w.indent, lo + 1, hi);
      var rest := TreeOf(ws, j, hi);
      if w.value != "" then More(w.key, Leaf(w.value), rest)
      else
        var deeper := if lo + 1 < j then ws[lo + 1].indent - w.indent else 1;
        More(w.key, Block(deeper, TreeOf(ws, lo + 1, j)), rest)
  }

  /** The keys of the tree stand at the level of its first line. */
  lemma {:induction false} TreeKeys(ws: seq<Assignment>, lo: nat, hi: nat, key: string) returns (t: nat)
    requires lo <= hi <= |ws| && KeyAmong(TreeOf(ws, lo, hi), key)
    requires forall k | lo <= k < hi :: ws[k].indent >= ws[lo].indent
    ensures lo <= t < hi && ws[t].indent == ws[lo].indent && ws[t].key == key
    decreases hi - lo
  {
    if ws[lo].key == key {
      t := lo;
    } else {
      var j := BlockEnd(ws, ws[lo].indent, lo + 1, hi);
      assert TreeOf(ws, lo, hi).rest == TreeOf(ws, j, hi);
      t := TreeKeys(ws, j, hi, key);
    }
  }

  lemma BlockFlattens(w: Assignment, inner: Entries, rest: Entries, deeper: nat, below: seq<Assignment>,
                      after: seq<Assignment>)
    requires w.value == "" && deeper >= 1 && Proper(inner) && Proper(rest) && !KeyAmong(rest, w.key)
    requires Flatten(inner, w.indent + deeper) == below && Flatten(rest, w.indent) == after
    ensures var tree := More(w.key, Block(deeper, inner), rest);
      Proper(tree) && Flatten(tree, w.indent) == [w] + below + after
  {
  }

  lemma LeafFlattens(w: Assignment, rest: Entries, after: seq<Assignment>)
    requires w.value != "" && Proper(rest) && !KeyAmong(rest, w.key) && Flatten(rest, w.indent) == after
    ensures var tree := More(w.key, Leaf(w.value), rest);
      Proper(tree) && Flatten(tree, w.indent) == [w] + [] + after
  {
  }

  lemma {:induction false} LaidOutIsTree(ws: seq<Assignment>, lo: nat, hi: nat, indent: nat)
    requires WellLaidOut(ws) && lo <= hi <= |ws|
    requires lo < hi ==> ws[lo].indent == indent
    requires forall k | lo <= k < hi :: ws[k].indent >= indent
    ensures Proper(TreeOf(ws, lo, hi)) && Flatten(TreeOf(ws, lo, hi), indent) == ws[lo..hi]
    decreases hi - lo
  {
    hide WellLaidOut, Flatten, Proper, KeyAmong, TreeOf;
    if lo == hi {
      NothingIsEnd(ws, lo);
      EndIsNothing(indent);
    } else {
      var w, j := ws[lo], BlockEnd(ws, indent, lo + 1, hi);
      LaidOutIsTree(ws, j, hi, indent);
      KeyIsNew(ws, lo, j, hi);
      if lo + 1 < j {
        OpensFirst(ws, lo);
        StretchWithin(ws, lo + 1, j);
        LaidOutIsTree(ws, lo + 1, j, ws[lo + 1].indent);
      } else {
        NothingIsEnd(ws, lo + 1);
        EndIsNothing(indent + 1);
      }
      TreeFlattens(ws, lo, j, hi);
    }
  }

  lemma NothingIsEnd(ws: seq<Assignment>, i: nat)
    requires i <= |ws|
    ensures TreeOf(ws, i, i) == End
  {
  }

  lemma TreeFlattens(ws: seq<Assignment>, lo: nat, j: nat, hi: nat)
    requires lo < hi <= |ws| && j == BlockEnd(ws, ws[lo].indent, lo + 1, hi)
    requires Proper(TreeOf(ws, j, hi)) && Flatten(TreeOf(ws, j, hi), ws[lo].indent) == ws[j..hi]
    requires !KeyAmong(TreeOf(ws, j, hi), ws[lo].key)
    requires lo + 1 < j ==> ws[lo].value == "" && Proper(TreeOf(ws, lo + 1, j))
                            && Flatten(TreeOf(ws, lo + 1, j), ws[lo + 1].indent) == ws[lo + 1..j]
    requires lo + 1 == j ==> TreeOf(ws, lo + 1, j) == End && Proper(End) && Flatten(End, ws[lo].indent + 1) == []
    ensures Proper(TreeOf(ws, lo, hi)) && Flatten(TreeOf(ws, lo, hi), ws[lo].indent) == ws[lo..hi]
  {
    hide Flatten, Proper, KeyAmong;
    var w, rest := ws[lo], TreeOf(ws, j, hi);
    assert ws[lo..hi] == [w] + ws[lo + 1..j] + ws[j..hi];
    if lo + 1 < j {
      BlockFlattens(w, TreeOf(ws, lo + 1, j), rest, ws[lo + 1].indent - w.indent, ws[lo + 1..j], ws[j..hi]);
    } else if w.value == "" {
      BlockFlattens(w, End, rest, 1, [], ws[j..hi]);
    } else {
      LeafFlattens(w, rest, ws[j..hi]);
    }
  }

  lemma EndIsNothing(indent: nat)
    ensures Proper(End) && Flatten(End, indent) == []
  {
  }

  lemma OpensFirst(ws: seq<Assignment>, lo: nat)
    requires WellLaidOut(ws) && lo + 1 < |ws| && ws[lo + 1].indent > ws[lo].indent
    ensures ws[lo].value == ""
  {
    assert OpensBlock(ws, lo + 1);
  }

  /** The keys after the block under a key differ from it. */
  lemma KeyIsNew(ws: seq<Assignment>, lo: nat, j: nat, hi: nat)
    requires WellLaidOut(ws) && lo < j <= hi <= |ws|
    requires forall k | lo <= k < hi :: ws[k].indent >= ws[lo].indent
    requires j < hi ==> ws[j].indent == ws[lo].indent
    ensures !KeyAmong(TreeOf(ws, j, hi), ws[lo].key)
  {
    if KeyAmong(TreeOf(ws, j, hi), ws[lo].key) {
      var t := TreeKeys(ws, j, hi, ws[lo].key);
      assert SameBlock(ws, lo, t);
      assert false;
    }
  }

  /**
   * Of the texts without an unsupported line, all of which are read, those that lay out a tree and are read as what
   * it means are exactly the well laid out ones. Everything else is silently misread.
   */
  lemma ReadAsLaidOutExactly(lines: seq<string>)
    requires AllSupported(lines)
    ensures ParseText(lines).Loaded?
    ensures (exists entries: Entries, indent: nat ::
               Lays(lines, entries, indent) && ParseText(lines) == Loaded(Meaning(entries)))
            <==> WellLaidOut(Assignments(lines))
  {
    hide ReadLine, Assignments, Flatten, WellLaidOut, Meaning;
    FailsAtFirstBroken(lines, 1, START);
    hide ParseText;
    var ws := Assignments(lines);
    if WellLaidOut(ws) {
      var indent := if ws == [] then 0 else ws[0].indent;
      if ws != [] {
        StretchWithin(ws, 0, |ws|);
      }
      LaidOutIsTree(ws, 0, |ws|, indent);
      assert ws[0..|ws|] == ws;
      assert Lays(lines, TreeOf(ws, 0, |ws|), indent);
      LaidOutIsRead(lines, TreeOf(ws, 0, |ws|), indent);
    }
    if entries: Entries, indent: nat :| Lays(lines, entries, indent) && ParseText(lines) == Loaded(Meaning(entries)) {
      TreesAreLaidOut(entries, indent);
    }
  }

  lemma TwoLeaves(key: string, text: string, other: string, more: string, indent: nat)
    requires SimpleKey(key) && SimpleText(text) && SimpleKey(other) && SimpleText(more) && key != other
    ensures var siblings := More(key, Leaf(text), More(other, Leaf(more), End));
      Writable(siblings) && Write(siblings, indent) == [WriteLine(indent, key, text)] + [WriteLine(indent, other, more)]
  {
    hide SimpleKey, SimpleText, WriteLine;
    assert Write(End, indent) == [] && !KeyAmong(End, key) && !KeyAmong(End, other) && Writable(End);
    assert Writable(More(other, Leaf(more), End)) && !KeyAmong(More(other, Leaf(more), End), key);
    assert Write(More(other, Leaf(more), End), indent) == [WriteLine(indent, other, more)];
  }

  lemma DeeperGoesBeside(st: State, indent: nat, deeper: nat, key: string, text: string, other: string, more: string)
    requires Valid(st) && text != "" && more != ""
    ensures var one := PutLine(st, indent, key, text);
      Valid(one) && PutLine(one, indent + deeper, other, more) == PutLine(one, indent, other, more)
  {
    hide ParseScalar, Put;
    PutLineValid(st, indent, key, text);
    PopKeepsBase(st.stack, |st.dicts|, indent);
  }

  lemma FeedFirst(line: string, rest: seq<string>, at: nat, st: State, indent: nat, key: string, value: string)
    requires Valid(st) && ReadLine(line) == KeyValue(indent, key, value)
    ensures Valid(PutLine(st, indent, key, value))
    ensures Feed([line] + rest, at, st) == Feed(rest, at + 1, PutLine(st, indent, key, value))
  {
    hide ReadLine, PutLine, Valid;
    PutLineValid(st, indent, key, value);
    assert ([line] + rest)[1..] == rest;
  }

  lemma FeedPair(first: string, second: string, st: State, one: State,
                 i: nat, k: string, v: string, j: nat, l: string, w: string)
    requires Valid(st) && ReadLine(first) == KeyValue(i, k, v) && ReadLine(second) == KeyValue(j, l, w)
    requires one == PutLine(st, i, k, v) && Valid(one)
    ensures Feed([first, second], 1, st) == Done(PutLine(one, j, l, w))
  {
    hide ReadLine, PutLine, Valid;
    FeedFirst(first, [second], 1, st, i, k, v);
    FeedFirst(second, [], 2, one, j, l, w);
    assert [first, second] == [first] + [second] && [second] + [] == [second];
  }

  lemma SiblingsFeed(key: string, text: string, other: string, more: string, indent: nat, deeper: nat)
    requires SimpleKey(key) && SimpleText(text) && SimpleKey(other) && SimpleText(more)
    ensures Feed([WriteLine(indent, key, text), WriteLine(indent + deeper, other, more)], 1, START)
         == Feed([WriteLine(indent, key, text), WriteLine(indent, other, more)], 1, START)
  {
    assert Valid(START) && text != "" && more != "";
    hide ReadLine, WriteLine, SimpleKey, SimpleText, PutLine, Valid, Feed;
    ReadsWrittenLine(indent, key, text);
    ReadsWrittenLine(indent + deeper, other, more);
    ReadsWrittenLine(indent, other, more);
    DeeperGoesBeside(START, indent, deeper, key, text, other, more);
    var one := PutLine(START, indent, key, text);
    FeedPair(WriteLine(indent, key, text), WriteLine(indent + deeper, other, more), START, one,
             indent, key, text, indent + deeper, other, more);
    FeedPair(WriteLine(indent, key, text), WriteLine(indent, other, more), START, one,
             indent, key, text, indent, other, more);
  }

  lemma DeeperThanValue(w: Assignment, v: Assignment)
    requires w.value != "" && v.indent > w.indent
    ensures !WellLaidOut([w, v])
  {
    var ws := [w, v];
    assert !OpensBlock(ws, 1);
  }

  lemma TwoAssignments(first: string, second: string, w: Assignment, v: Assignment)
    requires ReadLine(first) == KeyValue(w.indent, w.key, w.value)
    requires ReadLine(second) == KeyValue(v.indent, v.key, v.value)
    ensures Assignments([first, second]) == [w, v]
  {
    hide ReadLine, Assignments;
    OneLine(first, w);
    OneLine(second, v);
    AssignmentsSplit([first], [second]);
    assert [first] + [second] == [first, second];
  }

  lemma UnderScalar(key: string, text: string, other: string, more: string, indent: nat, deeper: nat)
    requires SimpleKey(key) && SimpleText(text) && SimpleKey(other) && SimpleText(more)
    ensures deeper >= 1 ==>
      !WellLaidOut(Assignments([WriteLine(indent, key, text), WriteLine(indent + deeper, other, more)]))
  {
    hide *;
    SimpleTextStands(text);
    ReadsWrittenLine(indent, key, text);
    ReadsWrittenLine(indent + deeper, other, more);
    var w, v := Assignment(indent, key, text), Assignment(indent + deeper, other, more);
    TwoAssignments(WriteLine(indent, key, text), WriteLine(indent + deeper, other, more), w, v);
    if deeper >= 1 {
      DeeperThanValue(w, v);
    }
  }

  /**
   * The reader promises to refuse what it does not support, but it accepts a line indented under a scalar:
   * whatever the indentation, it becomes a sibling of that scalar.
   */
  lemma LineUnderScalarIsSibling(key: string, text: string, other: string, more: string, indent: nat, deeper: nat)
    requires SimpleKey(key) && SimpleText(text) && SimpleKey(other) && SimpleText(more) && key != other
    ensures ParseText([WriteLine(indent, key, text), WriteLine(indent + deeper, other, more)])
         == Loaded(Meaning(More(key, Leaf(text), More(other, Leaf(more), End))))
    ensures deeper >= 1 ==>
      !WellLaidOut(Assignments([WriteLine(indent, key, text), WriteLine(indent + deeper, other, more)]))
  {
    hide WriteLine, SimpleKey, SimpleText, Root, Writable, Write, Meaning, Feed;
    var siblings := More(key, Leaf(text), More(other, Leaf(more), End));
    SiblingsFeed(key, text, other, more, indent, deeper);
    TwoLeaves(key, text, other, more, indent);
    ReadsBack(siblings, indent);
    assert Write(siblings, indent) == [WriteLine(indent, key, text), WriteLine(indent, other, more)];
    UnderScalar(key, text, other, more, indent, deeper);
  }
}
