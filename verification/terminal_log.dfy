/**
 * The simulated terminal in the contact section: every interval tick, when
 * the terminal exists and a random draw passes, a command line is inserted
 * before the typing-animation element, the command index advances
 * cyclically, and once there are more than seven paragraphs the second one
 * is removed.
 *
 * The random draw `Math.random() > 0.7` is the boolean `gate`; the timer is
 * not modelled. The terminal body is the sequence of its child elements.
 */
module TerminalLog {
  import opened Wrappers

  /** The commands written to the terminal, in turn. */
  const TerminalCommands: seq<string> := [
    "ls -la skills/",
    "cat about.txt",
    "ssh root@success",
    "nmap -A opportunities"
  ]

  /** Above this many paragraphs, one is removed. */
  const MaxLines: nat := 7

  /** The markup before the command in every inserted line. */
  const Prompt: string := "<span class=\"prompt\">$</span> "

  /** A child element of the terminal body: is it a `<p>`, is it the typing animation, its markup. */
  datatype Node = Node(isParagraph: bool, isTypingAnimation: bool, html: string)

  /** The `<p>` the tick creates for a command. */
  function CommandLine(cmd: string): (r: Node)
    ensures r.isParagraph && !r.isTypingAnimation
    ensures |r.html| == |Prompt| + |cmd| && r.html[..|Prompt|] == Prompt && r.html[|Prompt|..] == cmd
  {
    Node(true, false, Prompt + cmd)
  }

  /** `querySelectorAll('p')`: the paragraphs, in document order. */
  function Paragraphs(children: seq<Node>): (r: seq<Node>)
    ensures |r| <= |children|
    ensures forall i :: 0 <= i < |r| ==> r[i].isParagraph
  {
    if children == [] then []
    else (if children[0].isParagraph then [children[0]] else []) + Paragraphs(children[1..])
  }

  /** Every paragraph listed is one of the children. */
  lemma {:induction false} ParagraphsAreChildren(children: seq<Node>)
    ensures forall n :: n in Paragraphs(children) ==> n in children
  {
    if children != [] {
      ParagraphsAreChildren(children[1..]);
    }
  }

  /** One step of `Paragraphs` on a child put in front. */
  lemma ParagraphsCons(n: Node, rest: seq<Node>)
    ensures Paragraphs([n] + rest) == (if n.isParagraph then [n] else []) + Paragraphs(rest)
  {
    assert ([n] + rest)[0] == n && ([n] + rest)[1..] == rest;
  }

  /** `querySelector('.typing-animation')`: the position of the first typing animation, if any. */
  function FindTypingAnimation(children: seq<Node>): (r: Option<nat>)
    ensures r.Some? ==>
      && r.value < |children|
      && children[r.value].isTypingAnimation
      && forall j :: 0 <= j < r.value ==> !children[j].isTypingAnimation
    ensures r.None? ==> forall j :: 0 <= j < |children| ==> !children[j].isTypingAnimation
  {
    if children == [] then None
    else if children[0].isTypingAnimation then Some(0)
    else match FindTypingAnimation(children[1..])
      case None => None
      case Some(i) => Some(i + 1)
  }

  /** `insertBefore(node, children[i])`. */
  function InsertBefore(children: seq<Node>, i: nat, node: Node): (r: seq<Node>)
    requires i <= |children|
    ensures |r| == |children| + 1 && r[i] == node
    ensures forall j :: 0 <= j < i ==> r[j] == children[j]
    ensures forall j :: i <= j < |children| ==> r[j + 1] == children[j]
  {
    children[..i] + [node] + children[i..]
  }

  /** The position among the children of the k-th paragraph. */
  function ParagraphPosition(children: seq<Node>, k: nat): (p: nat)
    requires k < |Paragraphs(children)|
    ensures p < |children| && children[p].isParagraph
    ensures |Paragraphs(children[..p])| == k
  {
    if children[0].isParagraph && k == 0 then
      assert children[..0] == [];
      0
    else
      var q := ParagraphPosition(children[1..], if children[0].isParagraph then k - 1 else k);
      assert children[..q + 1][0] == children[0] && children[..q + 1][1..] == children[1..][..q];
      q + 1
  }

  /**
   * `querySelectorAll('p')[k].remove()`: drop the k-th paragraph, keeping
   * every other child in place (see `RemoveParagraphInPlace`).
   */
  function RemoveParagraph(children: seq<Node>, k: nat): (r: seq<Node>)
    requires k < |Paragraphs(children)|
    ensures |r| == |children| - 1
    ensures Paragraphs(r) == Paragraphs(children)[..k] + Paragraphs(children)[k + 1..]
  {
    if children[0].isParagraph && k == 0 then
      RemoveFirstParagraphStep(children);
      children[1..]
    else
      var k' := if children[0].isParagraph then k - 1 else k;
      RemoveLaterParagraphStep(children, k);
      var r := RemoveParagraph(children[1..], k');
      RemoveParagraphStep(children, k, r);
      [children[0]] + r
  }

  /** The base case of `RemoveParagraph`: the first child is the paragraph to drop. */
  lemma RemoveFirstParagraphStep(children: seq<Node>)
    requires children != [] && children[0].isParagraph
    ensures Paragraphs(children[1..]) == Paragraphs(children)[..0] + Paragraphs(children)[1..]
  {
    assert children == [children[0]] + children[1..];
    ParagraphsCons(children[0], children[1..]);
  }

  /** The recursive case of `RemoveParagraph` asks for a paragraph that exists in the tail. */
  lemma RemoveLaterParagraphStep(children: seq<Node>, k: nat)
    requires k < |Paragraphs(children)| && !(children[0].isParagraph && k == 0)
    ensures (if children[0].isParagraph then k - 1 else k) < |Paragraphs(children[1..])|
    ensures children[0].isParagraph ==> k > 0
  {
    assert children == [children[0]] + children[1..];
    ParagraphsCons(children[0], children[1..]);
  }

  /** Putting the first child back in front of the tail's result gives the whole result. */
  lemma RemoveParagraphStep(children: seq<Node>, k: nat, r: seq<Node>)
    requires k < |Paragraphs(children)| && !(children[0].isParagraph && k == 0)
    requires var k' := if children[0].isParagraph then k - 1 else k;
      k' < |Paragraphs(children[1..])| &&
      Paragraphs(r) == Paragraphs(children[1..])[..k'] + Paragraphs(children[1..])[k' + 1..]
    ensures Paragraphs([children[0]] + r) == Paragraphs(children)[..k] + Paragraphs(children)[k + 1..]
  {
    var head := if children[0].isParagraph then [children[0]] else [];
    assert children == [children[0]] + children[1..];
    ParagraphsCons(children[0], children[1..]);
    ParagraphsCons(children[0], r);
    DropAfterPrefix(head, Paragraphs(children[1..]), k - |head|);
  }

  /** Dropping element k of `xs` behind a prefix is dropping element |pre| + k of the whole. */
  lemma DropAfterPrefix(pre: seq<Node>, xs: seq<Node>, k: nat)
    requires k < |xs|
    ensures (pre + xs)[..|pre| + k] + (pre + xs)[|pre| + k + 1..] == pre + (xs[..k] + xs[k + 1..])
  {
    assert (pre + xs)[..|pre| + k] == pre + xs[..k];
    assert (pre + xs)[|pre| + k + 1..] == xs[k + 1..];
  }

  /**
   * The removal takes out the one child that is the k-th paragraph and
   * leaves every other child where it was, in order.
   */
  lemma {:induction false} RemoveParagraphInPlace(children: seq<Node>, k: nat)
    requires k < |Paragraphs(children)|
    ensures var p := ParagraphPosition(children, k);
      RemoveParagraph(children, k) == children[..p] + children[p + 1..]
  {
    if children[0].isParagraph && k == 0 {
      assert ParagraphPosition(children, k) == 0;
    } else {
      var rest := children[1..];
      var k' := if children[0].isParagraph then k - 1 else k;
      var q := ParagraphPosition(rest, k');
      assert ParagraphPosition(children, k) == q + 1;
      assert RemoveParagraph(children, k) == [children[0]] + RemoveParagraph(rest, k');
      RemoveParagraphInPlace(rest, k');
      DropOneAfterHead(children, q);
    }
  }

  /** Dropping element q + 1 of a sequence is dropping element q of its tail, after the head. */
  lemma DropOneAfterHead(s: seq<Node>, q: nat)
    requires q + 1 < |s|
    ensures s[..q + 1] + s[q + 2..] == [s[0]] + (s[1..][..q] + s[1..][q + 1..])
  {
    assert s[..q + 1] == [s[0]] + s[1..][..q];
    assert s[q + 2..] == s[1..][q + 1..];
  }

  /** Hence some paragraph child is removed and nothing else moves. */
  lemma RemovesOneParagraphChild(children: seq<Node>, k: nat)
    requires k < |Paragraphs(children)|
    ensures exists j :: 0 <= j < |children| && children[j].isParagraph &&
                        RemoveParagraph(children, k) == children[..j] + children[j + 1..]
  {
    RemoveParagraphInPlace(children, k);
    var p := ParagraphPosition(children, k);
    assert children[p].isParagraph;
  }

  lemma {:induction false} ParagraphsConcat(a: seq<Node>, b: seq<Node>)
    ensures Paragraphs(a + b) == Paragraphs(a) + Paragraphs(b)
  {
    if a == [] {
      assert a + b == b;
    } else {
      assert (a + b)[0] == a[0] && (a + b)[1..] == a[1..] + b;
      ParagraphsConcat(a[1..], b);
    }
  }

  /** The terminal body's children and the global `commandIndex`. */
  datatype LogState = LogState(children: seq<Node>, commandIndex: nat)

  /** The children after the insertion step of a gated tick. */
  function AfterInsert(children: seq<Node>, line: Node): (r: seq<Node>)
    ensures FindTypingAnimation(children).None? ==> r == children
    ensures FindTypingAnimation(children).Some? ==>
      |r| == |children| + 1 && r[FindTypingAnimation(children).value] == line
  {
    match FindTypingAnimation(children)
    case None => children
    case Some(i) => InsertBefore(children, i, line)
  }

  /** One interval callback; `hasBody` says whether the terminal exists on the page. */
  function Tick(hasBody: bool, s: LogState, gate: bool): (r: LogState)
    requires s.commandIndex < |TerminalCommands|
    ensures r.commandIndex < |TerminalCommands|
  {
    if !(hasBody && gate) then s
    else
      var c := AfterInsert(s.children, CommandLine(TerminalCommands[s.commandIndex]));
      LogState(if |Paragraphs(c)| > MaxLines then RemoveParagraph(c, 1) else c,
               (s.commandIndex + 1) % |TerminalCommands|)
  }

  /**
   * The new line lands immediately before the first typing animation and
   * adds one paragraph, between those before and those after it.
   */
  lemma InsertLandsBeforeAnimation(children: seq<Node>, cmd: string)
    requires FindTypingAnimation(children).Some?
    ensures var i, line := FindTypingAnimation(children).value, CommandLine(cmd);
      var r := AfterInsert(children, line);
      && |r| == |children| + 1
      && r[i] == line && r[i + 1] == children[i] && r[i + 1].isTypingAnimation
      && Paragraphs(r) == Paragraphs(children[..i]) + [line] + Paragraphs(children[i..])
  {
    var i, line := FindTypingAnimation(children).value, CommandLine(cmd);
    var before, after := children[..i], children[i..];
    assert AfterInsert(children, line) == before + [line] + after;
    assert Paragraphs([line]) == [line] by {
      assert [line][1..] == [];
    }
    ParagraphsConcat(before + [line], after);
    ParagraphsConcat(before, [line]);
  }

  /** Without a typing animation nothing is inserted. */
  lemma NoAnimationNoInsert(children: seq<Node>, cmd: string)
    requires FindTypingAnimation(children).None?
    ensures AfterInsert(children, CommandLine(cmd)) == children
  {
  }

  /** The paragraph count after insertion: one more exactly when there is a typing animation. */
  lemma AfterInsertCount(children: seq<Node>, cmd: string)
    ensures |Paragraphs(AfterInsert(children, CommandLine(cmd)))| ==
      |Paragraphs(children)| + if FindTypingAnimation(children).Some? then 1 else 0
  {
    if FindTypingAnimation(children).Some? {
      var i := FindTypingAnimation(children).value;
      InsertLandsBeforeAnimation(children, cmd);
      assert children == children[..i] + children[i..];
      ParagraphsConcat(children[..i], children[i..]);
    }
  }

  /**
   * A tick that is not gated through changes nothing. A gated tick advances
   * `commandIndex` modulo 4 whether or not a line was inserted; the number
   * of paragraphs grows by the insertion and shrinks by one whenever it
   * exceeds seven, so a count of at most seven stays at most seven.
   */
  lemma TickCounts(hasBody: bool, s: LogState, gate: bool)
    requires s.commandIndex < |TerminalCommands|
    ensures var r := Tick(hasBody, s, gate);
      && (!(hasBody && gate) ==> r == s)
      && (hasBody && gate ==> r.commandIndex == (s.commandIndex + 1) % 4)
      && (hasBody && gate ==>
            var n := |Paragraphs(s.children)| +
                     if FindTypingAnimation(s.children).Some? then 1 else 0;
            |Paragraphs(r.children)| == if n > MaxLines then n - 1 else n)
      && (|Paragraphs(s.children)| <= MaxLines ==> |Paragraphs(r.children)| <= MaxLines)
  {
    AfterInsertCount(s.children, TerminalCommands[s.commandIndex]);
  }

  /**
   * The removal takes exactly the second paragraph: the first is kept and
   * the others keep their order.
   */
  lemma RemovalKeepsFirstLine(hasBody: bool, s: LogState, gate: bool)
    requires s.commandIndex < |TerminalCommands| && hasBody && gate
    ensures var c := AfterInsert(s.children, CommandLine(TerminalCommands[s.commandIndex]));
      var r := Tick(hasBody, s, gate);
      |Paragraphs(c)| > MaxLines ==>
        Paragraphs(r.children) == [Paragraphs(c)[0]] + Paragraphs(c)[2..]
  {
  }

  /**
   * There is a first line, and it comes before the typing animation, as the
   * terminal's welcome line does in the page.
   */
  predicate LineLeads(children: seq<Node>) {
    && |Paragraphs(children)| > 0
    && (FindTypingAnimation(children).Some? ==>
          |Paragraphs(children[..FindTypingAnimation(children).value])| > 0)
  }

  lemma PrefixParagraphsGrow(children: seq<Node>, x: nat, y: nat)
    requires x <= y <= |children|
    ensures |Paragraphs(children[..x])| <= |Paragraphs(children[..y])|
  {
    assert children[..y] == children[..x] + children[x..y];
    ParagraphsConcat(children[..x], children[x..y]);
  }

  /** After inserting a non-animation before the first animation, that animation is still the first. */
  lemma InsertedAnimationIsFirst(children: seq<Node>, i: nat, line: Node)
    requires FindTypingAnimation(children) == Some(i) && !line.isTypingAnimation
    ensures FindTypingAnimation(InsertBefore(children, i, line)) == Some(i + 1)
  {
    var r := InsertBefore(children, i, line);
    assert r[i + 1] == children[i];
    forall j | 0 <= j < i + 1 ensures !r[j].isTypingAnimation {
      if j < i { assert r[j] == children[j]; }
    }
  }

  /** The insertion step keeps the first line ahead of the typing animation. */
  lemma InsertKeepsLineLeads(children: seq<Node>, cmd: string)
    requires LineLeads(children)
    ensures LineLeads(AfterInsert(children, CommandLine(cmd)))
  {
    match FindTypingAnimation(children)
    case None =>
    case Some(i) =>
      var line := CommandLine(cmd);
      var r := AfterInsert(children, line);
      InsertLandsBeforeAnimation(children, cmd);
      AfterInsertCount(children, cmd);
      InsertedAnimationIsFirst(children, i, line);
      assert r[..i + 1] == children[..i] + [line];
      ParagraphsConcat(children[..i], [line]);
  }

  /** A typing animation before the removed child was already there, no earlier than the first one. */
  lemma RemoveKeepsLineLeadsBefore(children: seq<Node>, p: nat, a2: nat)
    requires LineLeads(children) && p < |children|
    requires a2 < p && children[a2].isTypingAnimation
    ensures |Paragraphs(children[..a2])| > 0
  {
    PrefixParagraphsGrow(children, FindTypingAnimation(children).value, a2);
  }

  /** A typing animation after the removed child has the first paragraph before it. */
  lemma RemoveKeepsLineLeadsAfter(children: seq<Node>, p: nat, a2: nat)
    requires p <= a2 < |children| - 1 && |Paragraphs(children[..p])| == 1
    ensures |Paragraphs((children[..p] + children[p + 1..])[..a2])| > 0
  {
    assert (children[..p] + children[p + 1..])[..a2] == children[..p] + children[p + 1..a2 + 1];
    ParagraphsConcat(children[..p], children[p + 1..a2 + 1]);
  }

  /** Removing the second paragraph keeps the first line ahead of the typing animation. */
  lemma RemoveKeepsLineLeads(children: seq<Node>)
    requires LineLeads(children) && |Paragraphs(children)| > 1
    ensures LineLeads(RemoveParagraph(children, 1))
  {
    var p := ParagraphPosition(children, 1);
    RemoveParagraphInPlace(children, 1);
    DropKeepsLineLeads(children, p, RemoveParagraph(children, 1));
  }

  /** Dropping the child at p, with one paragraph before it, keeps the first line ahead. */
  lemma DropKeepsLineLeads(children: seq<Node>, p: nat, r: seq<Node>)
    requires LineLeads(children) && p < |children| && |Paragraphs(children[..p])| == 1
    requires r == children[..p] + children[p + 1..] && |Paragraphs(r)| > 0
    ensures LineLeads(r)
  {
    if FindTypingAnimation(r).Some? {
      var a2 := FindTypingAnimation(r).value;
      if a2 < p {
        assert r[a2] == children[a2] && r[..a2] == children[..a2];
        RemoveKeepsLineLeadsBefore(children, p, a2);
      } else {
        RemoveKeepsLineLeadsAfter(children, p, a2);
      }
    }
  }

  /** Every tick keeps the first line ahead of the typing animation. */
  lemma TickKeepsLineLeads(hasBody: bool, s: LogState, gate: bool)
    requires s.commandIndex < |TerminalCommands|
    requires LineLeads(s.children)
    ensures LineLeads(Tick(hasBody, s, gate).children)
  {
    if hasBody && gate {
      var cmd := TerminalCommands[s.commandIndex];
      var c := AfterInsert(s.children, CommandLine(cmd));
      InsertKeepsLineLeads(s.children, cmd);
      if |Paragraphs(c)| > MaxLines {
        RemoveKeepsLineLeads(c);
      }
    }
  }

  /** When the first line comes before the typing animation, a tick does not change it. */
  lemma FirstLineKept(hasBody: bool, s: LogState, gate: bool)
    requires s.commandIndex < |TerminalCommands|
    requires LineLeads(s.children)
    ensures var r := Tick(hasBody, s, gate);
      |Paragraphs(r.children)| > 0 && Paragraphs(r.children)[0] == Paragraphs(s.children)[0]
  {
    if hasBody && gate {
      var cmd := TerminalCommands[s.commandIndex];
      var c := AfterInsert(s.children, CommandLine(cmd));
      assert Paragraphs(c)[0] == Paragraphs(s.children)[0] by {
        match FindTypingAnimation(s.children)
        case None =>
        case Some(i) =>
          InsertLandsBeforeAnimation(s.children, cmd);
          assert s.children == s.children[..i] + s.children[i..];
          ParagraphsConcat(s.children[..i], s.children[i..]);
      }
    }
  }

  /** The terminal after one tick per entry of `gates`. */
  function Ticks(hasBody: bool, s: LogState, gates: seq<bool>): (r: LogState)
    requires s.commandIndex < |TerminalCommands|
    ensures r.commandIndex < |TerminalCommands|
  {
    if gates == [] then s
    else Tick(hasBody, Ticks(hasBody, s, gates[..|gates| - 1]), gates[|gates| - 1])
  }

  /**
   * The first line is always kept: over any run of ticks it stays the first
   * paragraph and stays ahead of the typing animation.
   */
  lemma {:induction false} FirstLineAlwaysKept(hasBody: bool, s: LogState, gates: seq<bool>)
    requires s.commandIndex < |TerminalCommands|
    requires LineLeads(s.children)
    ensures var r := Ticks(hasBody, s, gates);
      && LineLeads(r.children)
      && Paragraphs(r.children)[0] == Paragraphs(s.children)[0]
  {
    if gates != [] {
      var before := Ticks(hasBody, s, gates[..|gates| - 1]);
      FirstLineAlwaysKept(hasBody, s, gates[..|gates| - 1]);
      TickKeepsLineLeads(hasBody, before, gates[|gates| - 1]);
      FirstLineKept(hasBody, before, gates[|gates| - 1]);
    }
  }

  /** The terminal: its children and the command index, updated by the interval callback. */
  class Terminal {
    /** Whether `.terminal-contact .terminal-body` exists on the page. */
    const hasBody: bool
    var children: seq<Node>
    var commandIndex: nat

    ghost predicate Valid()
      reads this
    {
      commandIndex < |TerminalCommands|
    }

    /** Page load: the markup's children and `commandIndex = 0`. */
    constructor (hasBody: bool, markup: seq<Node>)
      ensures Valid()
      ensures this.hasBody == hasBody && children == markup && commandIndex == 0
    {
      this.hasBody := hasBody;
      children := markup;
      commandIndex := 0;
    }

    /** The body of the 5-second interval; `gate` is the outcome of `Math.random() > 0.7`. */
    method OnInterval(gate: bool)
      requires Valid()
      modifies this
      ensures Valid()
      ensures LogState(children, commandIndex) ==
        Tick(hasBody, LogState(old(children), old(commandIndex)), gate)
    {
      if hasBody && gate {
        var newLine := CommandLine(TerminalCommands[commandIndex]);
        var typingAnim := FindTypingAnimation(children);
        if typingAnim.Some? {
          children := InsertBefore(children, typingAnim.value, newLine);
        }
        commandIndex := (commandIndex + 1) % |TerminalCommands|;
        var lines := Paragraphs(children);
        if |lines| > MaxLines {
          children := RemoveParagraph(children, 1);
        }
      }
    }
  }
}
