/** The text of the published queue: node trimming (`VMObject::dump_node`), the
    priority splice and the pool document (`VMPool::make_queue`). */
module QueueDocument {
  import opened StdString
  import opened Wrappers

  const VM_OPEN := "<VM>"
  const VM_CLOSE := "</VM>"
  const PRIO_OPEN := "<USER_PRIORITY>"
  const PRIO_CLOSE := "</USER_PRIORITY>"
  const PRIO_NAME := "USER_PRIORITY"
  const TEMPLATE_OPEN := "<USER_TEMPLATE>"
  const HEADER := "<VM_POOL>"
  const FOOTER := "</VM_POOL>"

  // ----- dump_node -----

  /** Drop what precedes `<VM>` and what follows `</VM>`. */
  function DumpNode(dump: string): Result<string> {
    var head := if Contains(dump, VM_OPEN) then dump[Find(dump, VM_OPEN).value..] else "";
    Erase(head, Offset(Find(head, VM_CLOSE), 5), -1)
  }

  /** Starts with `<VM>`; the only `</VM>` is at its end. */
  ghost predicate IsNode(node: string) {
    |node| >= 9 && OccursAt(node, VM_OPEN, 0) && Find(node, VM_CLOSE) == Some(|node| - 5)
  }

  /** A dump is trimmed to a node exactly when some `</VM>` follows its first `<VM>`. */
  lemma DumpIsNodeIff(dump: string)
    ensures (DumpNode(dump).Ok? && IsNode(DumpNode(dump).value))
       <==> Contains(dump, VM_OPEN) && Contains(dump[Find(dump, VM_OPEN).value..], VM_CLOSE)
  {
    if Contains(dump, VM_OPEN) {
      var at := Find(dump, VM_OPEN).value;
      var head := dump[at..];
      OccursInSlice(dump, VM_OPEN, at, |dump|, 0);
      if Contains(head, VM_CLOSE) {
        var end := Find(head, VM_CLOSE).value;
        OpenThenClose(head, end);
        var node := head[..end + 5];
        OccursInSlice(head, VM_OPEN, 0, end + 5, 0);
        forall j | 0 <= j <= end
          ensures OccursAt(node, VM_CLOSE, j) <==> j == end
        {
          OccursInSlice(head, VM_CLOSE, 0, end + 5, j);
        }
        FoundAt(node, VM_CLOSE, end);
        assert DumpNode(dump) == Ok(node);
      } else {
        assert DumpNode(dump) == Ok(head[..4]);
      }
    } else {
      assert DumpNode(dump).OutOfRange?;
    }
  }

  /** The trimmed text is the part of the dump from the first `<VM>` to the end of
      the first `</VM>` after it. */
  lemma DumpShape(dump: string)
    requires DumpNode(dump).Ok? && IsNode(DumpNode(dump).value)
    ensures Contains(dump, "<VM>") && Contains(dump[Find(dump, "<VM>").value..], "</VM>")
    ensures var rest := dump[Find(dump, "<VM>").value..];
            DumpNode(dump).value == rest[..Find(rest, "</VM>").value + 5]
  {
    hide FindFrom;
    DumpIsNodeIff(dump);
  }

  /** A node between other texts is cut out exactly, if no `<VM>` starts before it
      and no `</VM>` before its end. */
  lemma TrimsExactly(before: string, inner: string, behind: string)
    requires var node := "<VM>" + inner + "</VM>";
             && (forall j :: 0 <= j < |before| ==> !OccursAt(before + node + behind, "<VM>", j))
             && (forall j :: 0 <= j < |node| - 5 ==> !OccursAt(node, "</VM>", j))
    ensures DumpNode(before + ("<VM>" + inner + "</VM>") + behind) == Ok("<VM>" + inner + "</VM>")
  {
    hide FindFrom, IsNode;
    var node := "<VM>" + inner + "</VM>";
    var dump := before + node + behind;
    NodeFromParts(inner);
    HeadStands(before, node, behind);
    FoundAt(dump, VM_OPEN, |before|);
    assert dump[|before|..] == node + behind;
    FirstNodeFound(node, behind);
    assert (node + behind)[..|node|] == node;
  }

  lemma NodeFromParts(inner: string)
    requires forall j :: 0 <= j < 4 + |inner| ==> !OccursAt("<VM>" + inner + "</VM>", VM_CLOSE, j)
    ensures IsNode("<VM>" + inner + "</VM>")
  {
    hide FindFrom;
    var node := "<VM>" + inner + "</VM>";
    assert node[0..4] == VM_OPEN && node[4 + |inner|..9 + |inner|] == VM_CLOSE;
    FoundAt(node, VM_CLOSE, 4 + |inner|);
  }

  lemma HeadStands(before: string, node: string, behind: string)
    requires IsNode(node)
    ensures OccursAt(before + node + behind, VM_OPEN, |before|)
  {
    hide FindFrom;
    var dump := before + node + behind;
    assert dump[|before|..|before| + |node|] == node;
    OccursInSlice(dump, VM_OPEN, |before|, |before| + |node|, 0);
  }

  lemma OpenThenClose(s: string, i: nat)
    requires OccursAt(s, VM_OPEN, 0) && OccursAt(s, VM_CLOSE, i)
    ensures 4 <= i
  {
    StartsDiffer(s, VM_OPEN, VM_CLOSE, 0, 1);
    TagsDisjoint(s, VM_OPEN, 0, VM_CLOSE, i);
  }

  // ----- the priority splice -----

  function Element(prio: string): (e: string)
    ensures |e| == |prio| + 31
  {
    PRIO_OPEN + prio + PRIO_CLOSE
  }

  /** A priority element between two texts. */
  function Framed(front: string, prio: string, back: string): (m: string)
    ensures |m| == |front| + 31 + |prio| + |back|
  {
    front + Element(prio) + back
  }

  /** Distance `end + 16 - start` in `size_t`; negative stands for wrapped around. */
  function CutLength(start: nat, end: Option<nat>): int {
    Offset(end, 16) - start
  }

  /** Replace the priority element, or insert one behind `<USER_TEMPLATE>`. */
  function Splice(node: string, prio: string): Result<string> {
    if Contains(node, PRIO_NAME) then
      match Find(node, PRIO_OPEN)
      case None => OutOfRange
      case Some(start) =>
        var cut := Erase(node, start, CutLength(start, Find(node, PRIO_CLOSE)));
        InsertAt(cut.value, start, Element(prio))
    else
      InsertAt(node, Offset(Find(node, TEMPLATE_OPEN), 15), Element(prio))
  }

  /** A node cannot be edited if it has the name of the priority element but no
      opening tag, or if it is short and has neither the name nor a template. */
  predicate Uneditable(node: string) {
    if Contains(node, PRIO_NAME) then !Contains(node, PRIO_OPEN)
    else !Contains(node, TEMPLATE_OPEN) && |node| < 14
  }

  lemma SpliceThrowsIff(node: string, prio: string)
    ensures Splice(node, prio).OutOfRange? <==> Uneditable(node)
  {
    hide FindFrom, Element;
  }

  /** A closing tag of the priority comes before the first opening one. */
  predicate ClosesFirst(node: string) {
    Contains(node, PRIO_OPEN) && Contains(node, PRIO_CLOSE)
    && Find(node, PRIO_CLOSE).value < Find(node, PRIO_OPEN).value
  }

  /** The nodes whose priority can be set and read back. */
  predicate Spliceable(node: string) {
    !Uneditable(node) && !ClosesFirst(node)
  }

  /** Where the text kept in front ends; with neither element at position 14. */
  function FrontEnd(node: string): (i: nat)
    requires !Uneditable(node)
    ensures i <= |node|
  {
    if Contains(node, PRIO_NAME) then Find(node, PRIO_OPEN).value else Offset(Find(node, TEMPLATE_OPEN), 15)
  }

  /** Where the text kept behind begins; a count that wraps around leaves none. */
  function BackStart(node: string): (i: nat)
    requires !Uneditable(node)
    ensures FrontEnd(node) <= i <= |node|
  {
    var start := FrontEnd(node);
    if !Contains(node, PRIO_NAME) then start else
      var count := CutLength(start, Find(node, PRIO_CLOSE));
      if count < 0 || start + count > |node| then |node| else start + count
  }

  /** The text of the first priority element. */
  function ReadPriority(node: string): Option<string> {
    match (Find(node, PRIO_OPEN), Find(node, PRIO_CLOSE))
    case (Some(i), Some(j)) => if i + 15 <= j then Some(node[i + 15..j]) else None
    case _ => None
  }

  predicate PlainText(prio: string) {
    '<' !in prio
  }

  lemma SpliceShape(node: string, prio: string)
    requires !Uneditable(node)
    ensures Splice(node, prio) == Ok(Framed(node[..FrontEnd(node)], prio, node[BackStart(node)..]))
  {
    hide Find, Element;
    var start, end := FrontEnd(node), BackStart(node);
    if Contains(node, PRIO_NAME) {
      assert node[..start] + node[|node|..] == node[..start];
      assert Erase(node, start, CutLength(start, Find(node, PRIO_CLOSE))) == Ok(node[..start] + node[end..]);
      CutAgain(node[..start], node[end..], Element(prio));
    }
  }

  lemma CutAgain(front: string, back: string, element: string)
    ensures InsertAt(front + back, |front|, element) == Ok(front + element + back)
  {
    assert (front + back)[..|front|] == front && (front + back)[|front|..] == back;
  }

  lemma Within(s: string, t: string, i: int, from: nat, to: nat)
    requires from <= to <= |t| && OccursAt(s, t, i)
    ensures OccursAt(s, t[from..to], i + from)
  {
    var a, b := s[i + from..i + to], t[from..to];
    forall k | 0 <= k < |a|
      ensures a[k] == b[k]
    {
      CharacterAt(s, t, i, from + k);
    }
  }

  /** Both tags of the priority contain its name. */
  lemma PrioTagsNamed(s: string, i: int)
    ensures OccursAt(s, PRIO_OPEN, i) ==> OccursAt(s, PRIO_NAME, i + 1)
    ensures OccursAt(s, PRIO_CLOSE, i) ==> OccursAt(s, PRIO_NAME, i + 2)
  {
    hide OccursAt;
    NameInTags();
    if OccursAt(s, PRIO_OPEN, i) {
      Within(s, PRIO_OPEN, i, 1, 14);
    }
    if OccursAt(s, PRIO_CLOSE, i) {
      Within(s, PRIO_CLOSE, i, 2, 15);
    }
  }

  lemma NameInTags()
    ensures PRIO_OPEN[1..14] == PRIO_NAME && PRIO_CLOSE[2..15] == PRIO_NAME
  {
  }

  /** A priority element between texts: where its parts are, and that no tag
      sits astride its borders. */
  lemma ElementParts(front: string, prio: string, back: string)
    ensures var m := Framed(front, prio, back);
            && OccursAt(m, PRIO_OPEN, |front|)
            && OccursAt(m, PRIO_CLOSE, |front| + 15 + |prio|)
            && m[|front| + 15..|front| + 15 + |prio|] == prio
            && m[..|front|] == front && m[|front| + 31 + |prio|..] == back
  {
    var m, f := Framed(front, prio, back), |front|;
    assert m[f..f + 15] == PRIO_OPEN;
    assert m[f + 15 + |prio|..f + 31 + |prio|] == PRIO_CLOSE;
  }

  /** A tag in the framed text lies in the front, is one of the element's own
      two tags, or lies in the back. */
  lemma WhereTagsAre(front: string, prio: string, back: string, tag: string, j: nat)
    requires PlainText(prio) && IsTag(tag)
    requires OccursAt(Framed(front, prio, back), tag, j)
    ensures || (j + |tag| <= |front| && OccursAt(front, tag, j))
            || j == |front| || j == |front| + 15 + |prio|
            || (j >= |front| + 31 + |prio| && OccursAt(back, tag, j - |front| - 31 - |prio|))
  {
    hide Framed, Element, FindFrom, OccursAt;
    var m, f, c := Framed(front, prio, back), |front|, |front| + 15 + |prio|;
    ElementParts(front, prio, back);
    if j < f {
      TagsDisjoint(m, tag, j, PRIO_OPEN, f);
      assert m[0..f] == front;
      OccursInSlice(m, tag, 0, f, j);
    } else if f < j < c {
      NoTagInside(front, prio, back, tag, j);
    } else if c < j {
      BehindElement(front, prio, back, tag, j);
    }
  }

  lemma NoTagInside(front: string, prio: string, back: string, tag: string, j: nat)
    requires PlainText(prio) && IsTag(tag) && |front| < j < |front| + 15 + |prio|
    ensures !OccursAt(Framed(front, prio, back), tag, j)
  {
    hide Framed, Element, FindFrom;
    var m, f := Framed(front, prio, back), |front|;
    ElementParts(front, prio, back);
    assert forall k :: f + 15 <= k < f + 15 + |prio| ==> m[k] == m[f + 15..f + 15 + |prio|][k - f - 15];
    if OccursAt(m, tag, j) {
      TagStart(m, tag, j);
      TagsDisjoint(m, PRIO_OPEN, f, tag, j);
    }
  }

  lemma BehindElement(front: string, prio: string, back: string, tag: string, j: nat)
    requires IsTag(tag) && j > |front| + 15 + |prio| && OccursAt(Framed(front, prio, back), tag, j)
    ensures j >= |front| + 31 + |prio| && OccursAt(back, tag, j - |front| - 31 - |prio|)
  {
    hide Framed, Element, FindFrom;
    var m, c := Framed(front, prio, back), |front| + 15 + |prio|;
    ElementParts(front, prio, back);
    TagsDisjoint(m, PRIO_CLOSE, c, tag, j);
    assert m[c + 16..|m|] == back;
    OccursInSlice(m, tag, c + 16, |m|, j - c - 16);
  }

  /** The element's opening tag is found first if the front has none of its own. */
  lemma OpenFound(front: string, prio: string, back: string)
    requires PlainText(prio) && !Contains(front, PRIO_OPEN)
    ensures Find(Framed(front, prio, back), PRIO_OPEN) == Some(|front|)
    ensures Contains(Framed(front, prio, back), PRIO_NAME)
  {
    hide Framed, Element, FindFrom;
    var m, f := Framed(front, prio, back), |front|;
    ElementParts(front, prio, back);
    forall j | 0 <= j < f
      ensures !OccursAt(m, PRIO_OPEN, j)
    {
      if OccursAt(m, PRIO_OPEN, j) {
        WhereTagsAre(front, prio, back, PRIO_OPEN, j);
      }
    }
    FoundAt(m, PRIO_OPEN, f);
    PrioTagsNamed(m, f);
  }

  /** The element's closing tag is found first if the front has none of its own. */
  lemma CloseFound(front: string, prio: string, back: string)
    requires PlainText(prio) && !Contains(front, PRIO_CLOSE)
    ensures Find(Framed(front, prio, back), PRIO_CLOSE) == Some(|front| + 15 + |prio|)
  {
    hide Framed, Element, FindFrom;
    var m, f, c := Framed(front, prio, back), |front|, |front| + 15 + |prio|;
    ElementParts(front, prio, back);
    StartsDiffer(m, PRIO_OPEN, PRIO_CLOSE, f, 1);
    forall j | 0 <= j < c
      ensures !OccursAt(m, PRIO_CLOSE, j)
    {
      if OccursAt(m, PRIO_CLOSE, j) {
        WhereTagsAre(front, prio, back, PRIO_CLOSE, j);
      }
    }
    FoundAt(m, PRIO_CLOSE, c);
  }

  /** A tag of the priority in front of the splice point would have its name there. */
  lemma NoTagWithoutName(node: string)
    requires !Contains(node, PRIO_NAME)
    ensures !Contains(node, PRIO_OPEN) && !Contains(node, PRIO_CLOSE)
  {
    hide FindFrom;
    if Contains(node, PRIO_OPEN) {
      PrioTagsNamed(node, Find(node, PRIO_OPEN).value);
    }
    if Contains(node, PRIO_CLOSE) {
      PrioTagsNamed(node, Find(node, PRIO_CLOSE).value);
    }
  }

  lemma OccursInFront(node: string, tag: string, f: nat)
    requires f <= |node| && Contains(node[..f], tag)
    ensures Contains(node, tag) && Find(node, tag).value + |tag| <= f
  {
    hide FindFrom;
    var j := Find(node[..f], tag).value;
    OccursInSlice(node, tag, 0, f, j);
  }

  /** No opening tag stands in front of the splice point, and no closing one
      unless it comes first in the node. */
  lemma FrontIsClean(node: string)
    requires !Uneditable(node)
    ensures !Contains(node[..FrontEnd(node)], PRIO_OPEN)
    ensures !ClosesFirst(node) ==> !Contains(node[..FrontEnd(node)], PRIO_CLOSE)
  {
    hide FindFrom;
    var f := FrontEnd(node);
    if !Contains(node, PRIO_NAME) {
      NoTagWithoutName(node);
    }
    if Contains(node[..f], PRIO_OPEN) {
      OccursInFront(node, PRIO_OPEN, f);
    }
    if Contains(node[..f], PRIO_CLOSE) {
      OccursInFront(node, PRIO_CLOSE, f);
    }
  }

  /** After a splice the priority reads back, the text around the element is
      untouched, and the node can be spliced again at the same place. */
  lemma SpliceReadsBack(node: string, prio: string)
    requires Spliceable(node) && PlainText(prio)
    ensures Splice(node, prio).Ok?
    ensures var m := Splice(node, prio).value;
            && ReadPriority(m) == Some(prio)
            && Spliceable(m)
            && m[..FrontEnd(m)] == node[..FrontEnd(node)]
            && m[BackStart(m)..] == node[BackStart(node)..]
  {
    hide Framed, Splice, Find, FrontEnd, BackStart;
    SpliceShape(node, prio);
    FrontIsClean(node);
    FramedReadsBack(node[..FrontEnd(node)], prio, node[BackStart(node)..]);
  }

  lemma FramedReadsBack(front: string, prio: string, back: string)
    requires PlainText(prio) && !Contains(front, PRIO_OPEN) && !Contains(front, PRIO_CLOSE)
    ensures var m := Framed(front, prio, back);
            && ReadPriority(m) == Some(prio) && Spliceable(m)
            && m[..FrontEnd(m)] == front && m[BackStart(m)..] == back
  {
    hide Framed, Find;
    OpenFound(front, prio, back);
    CloseFound(front, prio, back);
    ElementParts(front, prio, back);
  }

  /** The priority reads back exactly if the edit does not throw and no closing
      tag comes before the first opening one. */
  lemma SpliceReadsBackIff(node: string, prio: string)
    requires PlainText(prio)
    ensures (Splice(node, prio).Ok? && ReadPriority(Splice(node, prio).value) == Some(prio)) <==> Spliceable(node)
  {
    hide Framed, Splice, Find, FrontEnd, BackStart, Uneditable, ReadPriority, ClosesFirst;
    SpliceThrowsIff(node, prio);
    if Spliceable(node) {
      SpliceReadsBack(node, prio);
    } else if !Uneditable(node) {
      SpliceShape(node, prio);
      FrontIsClean(node);
      CloseInFront(node);
      EarlyCloseHides(node[..FrontEnd(node)], prio, node[BackStart(node)..]);
    }
  }

  lemma CloseInFront(node: string)
    requires !Uneditable(node) && ClosesFirst(node)
    ensures Contains(node[..FrontEnd(node)], PRIO_CLOSE)
  {
    hide FindFrom;
    var s, e := Find(node, PRIO_OPEN).value, Find(node, PRIO_CLOSE).value;
    PrioTagsNamed(node, s);
    TagsDisjoint(node, PRIO_CLOSE, e, PRIO_OPEN, s);
    OccursInSlice(node, PRIO_CLOSE, 0, s, e);
    assert node[0..s] == node[..s];
  }

  lemma EarlyCloseHides(front: string, prio: string, back: string)
    requires PlainText(prio) && !Contains(front, PRIO_OPEN) && Contains(front, PRIO_CLOSE)
    ensures ReadPriority(Framed(front, prio, back)) == None
  {
    hide Framed, FindFrom;
    var m, e := Framed(front, prio, back), Find(front, PRIO_CLOSE).value;
    OpenFound(front, prio, back);
    ElementParts(front, prio, back);
    OccursInSlice(m, PRIO_CLOSE, 0, |front|, e);
    assert m[0..|front|] == front;
  }

  /** The last priority set wins, whichever branch the first splice took. */
  lemma SpliceTwice(node: string, p: string, q: string)
    requires Spliceable(node) && PlainText(p)
    ensures Splice(node, p).Ok? && Splice(Splice(node, p).value, q) == Splice(node, q)
  {
    hide Framed, Splice, FrontEnd, BackStart, Uneditable, ClosesFirst;
    SpliceReadsBack(node, p);
    var m := Splice(node, p).value;
    SpliceShape(m, q);
    SpliceShape(node, q);
  }

  /** A closing VM tag in front of the last one would be in the old node too. */
  lemma NoEarlyClose(node: string, prio: string, f: nat, b: nat, j: nat)
    requires IsNode(node) && PlainText(prio)
    requires f <= b <= |node| - 5
    requires j < f + 31 + |prio| + |node| - b - 5
    ensures !OccursAt(Framed(node[..f], prio, node[b..]), VM_CLOSE, j)
  {
    hide Framed, FindFrom, Element;
    var front, back := node[..f], node[b..];
    var m := Framed(front, prio, back);
    assert node[0..f] == front && node[b..|node|] == back;
    if OccursAt(m, VM_CLOSE, j) {
      NotAnElementTag(front, prio, back, j);
      WhereTagsAre(front, prio, back, VM_CLOSE, j);
      if j < f {
        OccursInSlice(node, VM_CLOSE, 0, f, j);
      } else {
        OccursInSlice(node, VM_CLOSE, b, |node|, j - f - 31 - |prio|);
      }
    }
  }

  lemma NotAnElementTag(front: string, prio: string, back: string, j: nat)
    requires OccursAt(Framed(front, prio, back), VM_CLOSE, j)
    ensures j != |front| && j != |front| + 15 + |prio|
  {
    hide Framed, FindFrom, Element;
    var m := Framed(front, prio, back);
    ElementParts(front, prio, back);
    StartsDiffer(m, PRIO_OPEN, VM_CLOSE, |front|, 1);
    StartsDiffer(m, PRIO_CLOSE, VM_CLOSE, |front| + 15 + |prio|, 2);
  }

  lemma FramedEnds(node: string, prio: string, f: nat, b: nat)
    requires 4 <= f <= b <= |node| - 5
    ensures var m := Framed(node[..f], prio, node[b..]);
            m[0..4] == node[0..4] && m[|m| - 5..|m|] == node[|node| - 5..|node|]
  {
    hide Framed;
    var m := Framed(node[..f], prio, node[b..]);
    ElementParts(node[..f], prio, node[b..]);
    assert m[0..4] == m[..f][0..4];
    assert m[|m| - 5..|m|] == m[f + 31 + |prio|..][|node| - b - 5..];
  }

  /** What is kept in front holds `<VM>` and what is kept behind `</VM>`: still a node. */
  lemma FramedIsNode(node: string, prio: string, f: nat, b: nat)
    requires IsNode(node) && PlainText(prio) && 4 <= f <= b <= |node| - 5
    ensures IsNode(Framed(node[..f], prio, node[b..]))
  {
    hide Framed, FindFrom;
    var m := Framed(node[..f], prio, node[b..]);
    FramedEnds(node, prio, f, b);
    forall j: nat | j < |m| - 5
      ensures !OccursAt(m, VM_CLOSE, j)
    {
      NoEarlyClose(node, prio, f, b, j);
    }
    FoundAt(m, VM_CLOSE, |m| - 5);
  }

  /** With less than `</VM>` kept behind the text does not end in it. */
  lemma ShortBackBreaks(front: string, prio: string, back: string)
    requires |back| < 5
    ensures !IsNode(Framed(front, prio, back))
  {
    hide Framed, FindFrom;
    var m, c := Framed(front, prio, back), |front| + 15 + |prio|;
    ElementParts(front, prio, back);
    CharacterAt(m, PRIO_CLOSE, c, 11 + |back|);
    if IsNode(m) {
      CharacterAt(m, VM_CLOSE, |m| - 5, 0);
    }
  }

  /** Between the tags of a node: where any other tag stands. */
  lemma TagInside(node: string, tag: string, i: nat, k: nat, l: nat)
    requires IsNode(node) && IsTag(tag) && OccursAt(node, tag, i)
    requires k < |tag| && k < 4 && tag[k] != VM_OPEN[k]
    requires l < |tag| && l < 5 && tag[l] != VM_CLOSE[l]
    ensures 4 <= i && i + |tag| <= |node| - 5
  {
    hide FindFrom;
    var last := |node| - 5;
    StartsDiffer(node, VM_OPEN, tag, 0, k);
    TagsDisjoint(node, VM_OPEN, 0, tag, i);
    StartsDiffer(node, VM_CLOSE, tag, last, l);
    if i < last {
      TagsDisjoint(node, tag, i, VM_CLOSE, last);
    } else {
      TagsDisjoint(node, VM_CLOSE, last, tag, i);
    }
  }

  /** When an edited node stays a node.  Without a closing tag the erase count
      wraps around unless the opening tag starts by position 15; a closing tag in
      front of the opening one must be right in front; with neither element
      position 14 must not lie behind the start of `</VM>`. */
  predicate KeepsNode(node: string) {
    if Contains(node, PRIO_NAME) then
      match (Find(node, PRIO_OPEN), Find(node, PRIO_CLOSE))
      case (None, _) => false
      case (Some(s), None) => s <= 15
      case (Some(s), Some(e)) => s < e || s == e + 16
    else Contains(node, TEMPLATE_OPEN) || |node| >= 19
  }

  lemma CutInside(node: string)
    requires IsNode(node) && !Uneditable(node)
    ensures 4 <= FrontEnd(node) && (BackStart(node) <= |node| - 5 <==> KeepsNode(node))
  {
    hide IsNode, FindFrom;
    if Contains(node, PRIO_NAME) {
      var s := Find(node, PRIO_OPEN).value;
      TagInside(node, PRIO_OPEN, s, 1, 1);
      if Contains(node, PRIO_CLOSE) {
        var e := Find(node, PRIO_CLOSE).value;
        TagInside(node, PRIO_CLOSE, e, 1, 2);
        PrioTagsApart(node, s, e);
      }
    } else if Contains(node, TEMPLATE_OPEN) {
      TagInside(node, TEMPLATE_OPEN, Find(node, TEMPLATE_OPEN).value, 1, 1);
    }
  }

  lemma PrioTagsApart(node: string, s: nat, e: nat)
    requires OccursAt(node, PRIO_OPEN, s) && OccursAt(node, PRIO_CLOSE, e)
    ensures s < e || e + 16 <= s
  {
    StartsDiffer(node, PRIO_OPEN, PRIO_CLOSE, s, 1);
    if e < s {
      TagsDisjoint(node, PRIO_CLOSE, e, PRIO_OPEN, s);
    }
  }

  /** An edit keeps a node a node exactly under this condition. */
  lemma SpliceKeepsNodeIff(node: string, prio: string)
    requires IsNode(node) && PlainText(prio)
    ensures (Splice(node, prio).Ok? && IsNode(Splice(node, prio).value)) <==> KeepsNode(node)
  {
    hide Framed, Splice, Find, FrontEnd, BackStart, IsNode;
    SpliceThrowsIff(node, prio);
    if !Uneditable(node) {
      SpliceShape(node, prio);
      CutInside(node);
      var f, b := FrontEnd(node), BackStart(node);
      if b <= |node| - 5 {
        FramedIsNode(node, prio, f, b);
      } else {
        ShortBackBreaks(node[..f], prio, node[b..]);
      }
    }
  }

  /** The node stays a node and its priority reads back exactly if both tags of the priority
      stand in order, if only the opening one stands, by position 15, or if without either
      there is a user template or the node is long enough. */
  lemma SplicePublishesIff(node: string, prio: string)
    requires IsNode(node) && PlainText(prio)
    ensures (Splice(node, prio).Ok? && IsNode(Splice(node, prio).value)
             && ReadPriority(Splice(node, prio).value) == Some(prio))
       <==> if Contains(node, PRIO_NAME)
            then Contains(node, PRIO_OPEN)
                 && if Contains(node, PRIO_CLOSE)
                    then Find(node, PRIO_OPEN).value < Find(node, PRIO_CLOSE).value
                    else Find(node, PRIO_OPEN).value <= 15
            else Contains(node, TEMPLATE_OPEN) || |node| >= 19
  {
    hide Splice, Find, IsNode, ReadPriority;
    SpliceKeepsNodeIff(node, prio);
    SpliceReadsBackIff(node, prio);
    if Contains(node, PRIO_OPEN) && Contains(node, PRIO_CLOSE) {
      FoundApart(node);
    }
    if !Contains(node, PRIO_NAME) {
      NoTagWithoutName(node);
    }
  }

  lemma FoundApart(node: string)
    requires Contains(node, PRIO_OPEN) && Contains(node, PRIO_CLOSE)
    ensures var s, e := Find(node, PRIO_OPEN).value, Find(node, PRIO_CLOSE).value;
            s < e || e + 16 <= s
  {
    hide FindFrom;
    PrioTagsApart(node, Find(node, PRIO_OPEN).value, Find(node, PRIO_CLOSE).value);
  }

  // ----- the document -----

  /** One queue entry: the dump of a VM and the text of its priority. */
  datatype Entry = Entry(dump: string, prio: string)

  function Render(e: Entry): Result<string> {
    match DumpNode(e.dump)
    case OutOfRange => OutOfRange
    case Ok(node) => Splice(node, e.prio)
  }

  function Concat(nodes: seq<string>): string {
    if nodes == [] then "" else nodes[0] + Concat(nodes[1..])
  }

  lemma {:induction false} ConcatAppend(nodes: seq<string>, node: string)
    ensures Concat(nodes + [node]) == Concat(nodes) + node
  {
    if nodes != [] {
      ConcatAppend(nodes[1..], node);
      assert (nodes + [node])[1..] == nodes[1..] + [node];
      assert nodes[0] + (Concat(nodes[1..]) + node) == (nodes[0] + Concat(nodes[1..])) + node;
    } else {
      assert Concat([] + [node]) == node + Concat([]);
    }
  }

  /** The rendered nodes, unless rendering one of them throws. */
  function RenderAll(entries: seq<Entry>): (r: Result<seq<string>>)
    ensures r.Ok? ==> |r.value| == |entries| && forall i :: 0 <= i < |entries| ==> Render(entries[i]) == Ok(r.value[i])
  {
    if entries == [] then Ok([]) else
      match Render(entries[0])
      case OutOfRange => OutOfRange
      case Ok(node) =>
        match RenderAll(entries[1..])
        case OutOfRange => OutOfRange
        case Ok(nodes) => Ok([node] + nodes)
  }

  lemma {:induction false} RenderAllThrowsIff(entries: seq<Entry>)
    ensures RenderAll(entries).OutOfRange? <==> exists i :: 0 <= i < |entries| && Render(entries[i]).OutOfRange?
  {
    hide Render;
    if entries != [] {
      var rest := entries[1..];
      RenderAllThrowsIff(rest);
      if i :| 0 <= i < |rest| && Render(rest[i]).OutOfRange? {
        assert entries[i + 1] == rest[i];
      }
      assert entries == [entries[0]] + rest;
    }
  }

  function Document(entries: seq<Entry>): Result<string> {
    match RenderAll(entries)
    case OutOfRange => OutOfRange
    case Ok(nodes) => Ok(HEADER + Concat(nodes) + FOOTER)
  }

  /** Cut a text behind every `</VM>`. */
  function Split(body: string): seq<string>
    decreases |body|
  {
    match Find(body, VM_CLOSE)
    case None => if body == "" then [] else [body]
    case Some(i) => [body[..i + 5]] + Split(body[i + 5..])
  }

  /** The nodes between the pool tags. */
  function ParseDocument(doc: string): Option<seq<string>> {
    if HEADER <= doc && |doc| >= 19 && doc[|doc| - 10..] == FOOTER then Some(Split(doc[9..|doc| - 10])) else None
  }

  lemma {:induction false} SplitConcat(nodes: seq<string>)
    requires forall i :: 0 <= i < |nodes| ==> IsNode(nodes[i])
    ensures Split(Concat(nodes)) == nodes
  {
    if nodes == [] {
      assert Concat(nodes) == "";
    } else {
      var node, rest := nodes[0], Concat(nodes[1..]);
      var body := node + rest;
      FirstNodeFound(node, rest);
      SplitConcat(nodes[1..]);
      assert body[..|node|] == node && body[|node|..] == rest;
      assert nodes == [node] + nodes[1..];
    }
  }

  lemma FirstNodeFound(node: string, rest: string)
    requires IsNode(node)
    ensures Find(node + rest, VM_CLOSE) == Some(|node| - 5)
  {
    var body := node + rest;
    assert body[0..|node|] == node;
    forall j | 0 <= j <= |node| - 5
      ensures OccursAt(body, VM_CLOSE, j) <==> OccursAt(node, VM_CLOSE, j)
    {
      OccursInSlice(body, VM_CLOSE, 0, |node|, j);
    }
    FoundAt(body, VM_CLOSE, |node| - 5);
  }

  // ----- what an edit keeps -----

  /** An old element is replaced and nothing else. */
  lemma ReplacesElement(front: string, was: string, back: string, prio: string)
    requires var node := front + "<USER_PRIORITY>" + was + "</USER_PRIORITY>" + back;
             && (forall j :: 0 <= j < |front| ==> !OccursAt(node, "<USER_PRIORITY>", j))
             && (forall j :: 0 <= j < |front| + 15 + |was| ==> !OccursAt(node, "</USER_PRIORITY>", j))
    ensures Splice(front + "<USER_PRIORITY>" + was + "</USER_PRIORITY>" + back, prio)
         == Ok(front + "<USER_PRIORITY>" + prio + "</USER_PRIORITY>" + back)
  {
    hide FindFrom, Framed, Element, Splice;
    var node, f := front + "<USER_PRIORITY>" + was + "</USER_PRIORITY>" + back, |front|;
    InOnePiece(front, was, back);
    InOnePiece(front, prio, back);
    ElementParts(front, was, back);
    FoundAt(node, PRIO_OPEN, f);
    FoundAt(node, PRIO_CLOSE, f + 15 + |was|);
    PrioTagsNamed(node, f);
    SpliceShape(node, prio);
  }

  lemma InOnePiece(front: string, prio: string, back: string)
    ensures front + "<USER_PRIORITY>" + prio + "</USER_PRIORITY>" + back == Framed(front, prio, back)
  {
  }

  /** Without an element the new one lands right behind the first `<USER_TEMPLATE>`. */
  lemma InsertsBehindTemplate(front: string, back: string, prio: string)
    requires var node := front + "<USER_TEMPLATE>" + back;
             && (forall j :: 0 <= j < |node| ==> !OccursAt(node, "USER_PRIORITY", j))
             && (forall j :: 0 <= j < |front| ==> !OccursAt(node, "<USER_TEMPLATE>", j))
    ensures Splice(front + "<USER_TEMPLATE>" + back, prio)
         == Ok(front + "<USER_TEMPLATE>" + "<USER_PRIORITY>" + prio + "</USER_PRIORITY>" + back)
  {
    hide FindFrom, Framed, Element, Splice;
    var node, f := front + "<USER_TEMPLATE>" + back, |front|;
    assert node[f..f + 15] == TEMPLATE_OPEN;
    FoundAt(node, TEMPLATE_OPEN, f);
    SpliceShape(node, prio);
    InOnePiece(front + "<USER_TEMPLATE>", prio, back);
    assert node[..f + 15] == front + "<USER_TEMPLATE>" && node[f + 15..] == back;
  }

  /** What an edit takes out of a node that stays a node, `[f, b)`: the first
      priority element; an opening tag alone up to position 15; or nothing,
      behind the first template tag or at position 14. */
  predicate TakenOut(node: string, f: nat, b: nat) {
    if Contains(node, "USER_PRIORITY") then
      Find(node, "<USER_PRIORITY>") == Some(f)
      && match Find(node, "</USER_PRIORITY>") { case Some(e) => b == e + 16 case None => b == 15 }
    else
      f == b && match Find(node, "<USER_TEMPLATE>") { case Some(t) => f == t + 15 case None => f == 14 }
  }

  /** `node` is the part of the dump from the first `<VM>` to the end of the next
      `</VM>`, with this priority in place of what is taken out. */
  ghost predicate CarriesOver(dump: string, prio: string, node: string) {
    Contains(dump, "<VM>") && Contains(dump[Find(dump, "<VM>").value..], "</VM>")
    && var rest := dump[Find(dump, "<VM>").value..];
       var cut := rest[..Find(rest, "</VM>").value + 5];
       exists f: nat, b: nat :: f <= b <= |cut| && TakenOut(cut, f, b)
         && node == cut[..f] + "<USER_PRIORITY>" + prio + "</USER_PRIORITY>" + cut[b..]
  }

  lemma RenderCarriesOver(e: Entry)
    requires Publishable(e)
    ensures Render(e).Ok? && CarriesOver(e.dump, e.prio, Render(e).value)
  {
    hide FindFrom, Framed, Splice, IsNode, DumpNode, Find;
    var cut := DumpNode(e.dump).value;
    DumpShape(e.dump);
    SpliceShape(cut, e.prio);
    CutIsTakenOut(cut);
    var f, b := FrontEnd(cut), BackStart(cut);
    InOnePiece(cut[..f], e.prio, cut[b..]);
  }

  lemma CutIsTakenOut(node: string)
    requires Spliceable(node) && KeepsNode(node)
    ensures TakenOut(node, FrontEnd(node), BackStart(node))
  {
    hide FindFrom;
    if Contains(node, PRIO_OPEN) && Contains(node, PRIO_CLOSE) {
      FoundApart(node);
    }
  }

  /** Entries that can be published: the edit of the trimmed node leaves a node
      whose priority reads back. */
  ghost predicate Publishable(e: Entry) {
    && PlainText(e.prio) && DumpNode(e.dump).Ok? && IsNode(DumpNode(e.dump).value)
    && Spliceable(DumpNode(e.dump).value) && KeepsNode(DumpNode(e.dump).value)
  }

  lemma PublishableRenders(e: Entry)
    requires Publishable(e)
    ensures Render(e).Ok? && IsNode(Render(e).value) && ReadPriority(Render(e).value) == Some(e.prio)
  {
    hide Spliceable, KeepsNode, Splice, IsNode, ReadPriority, DumpNode;
    SpliceReadsBackIff(DumpNode(e.dump).value, e.prio);
    SpliceKeepsNodeIff(DumpNode(e.dump).value, e.prio);
  }

  /** Round trip: the published document splits into exactly the rendered nodes,
      in order; each reads back its priority and is otherwise the text of its dump. */
  lemma QueueRoundTrip(entries: seq<Entry>)
    requires forall i :: 0 <= i < |entries| ==> Publishable(entries[i])
    ensures Document(entries).Ok?
    ensures var nodes := ParseDocument(Document(entries).value);
            && nodes.Some? && |nodes.value| == |entries|
            && forall i :: 0 <= i < |entries| ==>
                 && Render(entries[i]) == Ok(nodes.value[i]) && ReadPriority(nodes.value[i]) == Some(entries[i].prio)
                 && CarriesOver(entries[i].dump, entries[i].prio, nodes.value[i])
  {
    hide Render, Publishable, ReadPriority, IsNode, Split, Concat, CarriesOver;
    forall i | 0 <= i < |entries|
      ensures Render(entries[i]).Ok? && IsNode(Render(entries[i]).value)
      ensures ReadPriority(Render(entries[i]).value) == Some(entries[i].prio)
      ensures CarriesOver(entries[i].dump, entries[i].prio, Render(entries[i]).value)
    {
      PublishableRenders(entries[i]);
      RenderCarriesOver(entries[i]);
    }
    RenderAllThrowsIff(entries);
    var nodes := RenderAll(entries).value;
    SplitConcat(nodes);
    var doc := HEADER + Concat(nodes) + FOOTER;
    assert doc[..9] == HEADER && doc[|doc| - 10..] == FOOTER;
    assert doc[9..|doc| - 10] == Concat(nodes);
  }

  /** A node with neither element: the failed search wraps around, so the
      priority lands at position 14 whatever is there, or the insertion throws. */
  lemma SpliceWithoutTemplate(node: string, prio: string)
    requires !Contains(node, PRIO_NAME) && !Contains(node, TEMPLATE_OPEN)
    ensures Splice(node, prio)
         == if |node| < 14 then OutOfRange else Ok(Framed(node[..14], prio, node[14..]))
  {
    hide Find, Element;
  }

  const SHORT_NODE := VM_OPEN + "<A>1</A>" + VM_CLOSE

  /** In this node position 14 is inside `</VM>`: whatever the priority, what is
      left is no node. */
  lemma SpliceBreaksNode(prio: string)
    requires PlainText(prio)
    ensures IsNode(SHORT_NODE) && Splice(SHORT_NODE, prio) == Ok(Framed("<VM><A>1</A></", prio, "VM>"))
    ensures !IsNode(Splice(SHORT_NODE, prio).value)
  {
    hide Find, Framed, Splice, IsNode;
    NodeAround("<A>1</A>");
    NoSuchName(SHORT_NODE, PRIO_NAME, 0);
    NoSuchName(SHORT_NODE, TEMPLATE_OPEN, 1);
    SpliceWithoutTemplate(SHORT_NODE, prio);
    SpliceKeepsNodeIff(SHORT_NODE, prio);
    assert SHORT_NODE[..14] == "<VM><A>1</A></" && SHORT_NODE[14..] == "VM>";
  }

  lemma NodeAround(inner: string)
    requires 'V' !in inner
    ensures IsNode(VM_OPEN + inner + VM_CLOSE)
  {
    hide FindFrom;
    var m := VM_OPEN + inner + VM_CLOSE;
    assert m[0..4] == VM_OPEN && m[|m| - 5..|m|] == VM_CLOSE;
    forall k | 2 <= k < |m| - 3
      ensures m[k] != 'V'
    {
      assert 4 <= k < 4 + |inner| ==> m[k] == inner[k - 4];
    }
    forall j: nat | j < |m| - 5
      ensures !OccursAt(m, VM_CLOSE, j)
    {
      if OccursAt(m, VM_CLOSE, j) {
        CharacterAt(m, VM_CLOSE, j, 2);
      }
    }
    FoundAt(m, VM_CLOSE, |m| - 5);
  }

  // ----- dumps that throw -----

  /** A dump without `<VM>` cannot be trimmed. */
  lemma DumpThrowsIff(dump: string)
    ensures DumpNode(dump).OutOfRange? <==> !Contains(dump, VM_OPEN)
  {
    if Contains(dump, VM_OPEN) {
      OccursInSlice(dump, VM_OPEN, Find(dump, VM_OPEN).value, |dump|, 0);
    }
  }

  /** Publishing this dump throws, whatever its priority. */
  predicate Throwing(dump: string) {
    DumpNode(dump).OutOfRange? || Uneditable(DumpNode(dump).value)
  }

  /** A document cannot be made exactly when one of its dumps throws. */
  lemma DocumentThrowsIff(entries: seq<Entry>)
    ensures Document(entries).OutOfRange? <==> exists i :: 0 <= i < |entries| && Throwing(entries[i].dump)
  {
    hide DumpNode, Splice, Uneditable, RenderAll;
    RenderAllThrowsIff(entries);
    forall i | 0 <= i < |entries|
      ensures Render(entries[i]).OutOfRange? <==> Throwing(entries[i].dump)
    {
      if DumpNode(entries[i].dump).Ok? {
        SpliceThrowsIff(DumpNode(entries[i].dump).value, entries[i].prio);
      }
    }
  }

  const ALIEN_NODE := "<VM><X_" + PRIO_NAME + "/></VM>"

  /** A longer name that merely contains the priority's name is enough to throw. */
  lemma AlienNameThrows(prio: string)
    ensures Splice(ALIEN_NODE, prio).OutOfRange?
  {
    hide Find, Splice;
    var node, front := ALIEN_NODE, "<VM><X_";
    assert node[7..20] == PRIO_NAME;
    assert OccursAt(node, PRIO_NAME, 7);
    assert node == front + PRIO_NAME + "/></VM>";
    assert 'U' !in front && '<' !in PRIO_NAME && 'U' !in "/></VM>";
    forall k | 0 <= k < |node| - 1
      ensures node[k] != '<' || node[k + 1] != 'U'
    {
      CharactersOfParts(front, PRIO_NAME, "/></VM>", k);
    }
    NoOpeningTag(node);
    SpliceThrowsIff(node, prio);
  }

  /** In `a + b + c` no `<U` arises if `b` has no `<` and the others no `U`. */
  lemma CharactersOfParts(a: string, b: string, c: string, k: nat)
    requires 'U' !in a && '<' !in b && 'U' !in c
    requires a != [] && b != [] && a[|a| - 1] != '<' && k < |a + b + c| - 1
    ensures (a + b + c)[k] != '<' || (a + b + c)[k + 1] != 'U'
  {
    var s := a + b + c;
    if k < |a| - 1 {
      assert s[k + 1] == a[k + 1];
    } else if k < |a| {
      assert s[k] == a[|a| - 1];
    } else if k < |a| + |b| {
      assert s[k] == b[k - |a|];
    } else {
      assert s[k + 1] == c[k + 1 - |a| - |b|];
    }
  }

  lemma NoOpeningTag(s: string)
    requires forall k :: 0 <= k < |s| - 1 ==> s[k] != '<' || s[k + 1] != 'U'
    ensures !Contains(s, PRIO_OPEN)
  {
    forall i: nat
      ensures !OccursAt(s, PRIO_OPEN, i)
    {
      if OccursAt(s, PRIO_OPEN, i) {
        CharacterAt(s, PRIO_OPEN, i, 0);
        CharacterAt(s, PRIO_OPEN, i, 1);
      }
    }
  }

  lemma NoSuchName(s: string, t: string, k: nat)
    requires k < |t| && t[k] !in s
    ensures !Contains(s, t)
  {
    forall i: nat
      ensures !OccursAt(s, t, i)
    {
      if OccursAt(s, t, i) {
        CharacterAt(s, t, i, k);
      }
    }
  }
}
