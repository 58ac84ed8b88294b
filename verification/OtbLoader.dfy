// The loader of OTB files (src/fileloader.cpp): one pass over the bytes with an explicit node stack.
//
// ParseTree follows the loop of the source; Run is the same loop as a function.  The main lemmas show
// that the loop accepts exactly the files that the recursive descent of OtbFormat reads, with the same
// tree, and what that means for the property ranges.
module OtbLoader {
  import opened Options
  import opened OtbFormat

  const IDENTIFIER_SIZE := 4
  const WILDCARD: seq<Byte> := [0, 0, 0, 0]

  datatype Parse = Invalid | Parsed(root: Node)

  // ---------------------------------------------------------------- the loop as a function

  /** A marker or the end of the node ends the property range, but only before the first child. */
  function Closed(n: Node, it: nat): Node {
    if n.children == [] then n.(propsEnd := it) else n
  }

  /** The node on top is finished: it becomes the last child of the node below, or the root. */
  function Pop(stack: seq<Node>, it: nat, root: Node): (r: (seq<Node>, Node))
    requires stack != []
  {
    var done := Closed(stack[|stack| - 1], it);
    var below := stack[..|stack| - 1];
    if below == [] then ([], done)
    else
      var parent := below[|below| - 1];
      (below[..|below| - 1] + [parent.(children := parent.children + [done])], root)
  }

  /** START: the top node's properties end, and a node without properties yet goes on top. */
  function Push(file: seq<Byte>, stack: seq<Node>, it: nat): seq<Node>
    requires stack != [] && it + 1 < |file|
  {
    stack[..|stack| - 1] + [Closed(stack[|stack| - 1], it), Node(file[it + 1], it + 2, it + 2, [])]
  }

  function Run(file: seq<Byte>, it: nat, stack: seq<Node>, root: Node): Parse
    decreases |file| - it
  {
    if it >= |file| then (if stack == [] then Parsed(root) else Invalid)
    else if file[it] == START then
      if stack == [] || it + 1 >= |file| then Invalid else Run(file, it + 2, Push(file, stack, it), root)
    else if file[it] == END then
      if stack == [] then Invalid else
        var (stack', root') := Pop(stack, it, root);
        Run(file, it + 1, stack', root')
    else if file[it] == ESCAPE then
      if it + 1 >= |file| then Invalid else Run(file, it + 2, stack, root)
    else Run(file, it + 1, stack, root)
  }

  function ParseFile(file: seq<Byte>): Parse
    requires |file| > IDENTIFIER_SIZE + 3
  {
    if file[4] != START then Invalid
    else
      var root := Node(file[5], 6, 6, []);
      Run(file, 6, [root], root)
  }

  /** The size and identifier tests of the constructor. */
  predicate Opens(file: seq<Byte>, accepted: seq<Byte>) {
    |file| > IDENTIFIER_SIZE + 3 && (file[..IDENTIFIER_SIZE] == accepted || file[..IDENTIFIER_SIZE] == WILDCARD)
  }

  // ---------------------------------------------------------------- the loader

  class Loader {
    const fileContents: seq<Byte>
    var root: Node
    var propBuffer: seq<Byte>

    constructor (file: seq<Byte>, accepted: seq<Byte>)
      requires Opens(file, accepted)
      ensures fileContents == file
    {
      fileContents := file;
      root := Node(0, 0, 0, []);
      propBuffer := [];
    }

    /** Reading a file: a loader for it, or none, where the program throws. */
    static method Open(file: seq<Byte>, accepted: seq<Byte>) returns (loader: Option<Loader>)
      ensures loader.Some? <==> Opens(file, accepted)
      ensures loader.Some? ==> fresh(loader.value) && loader.value.fileContents == file
    {
      if |file| <= IDENTIFIER_SIZE + 3 {
        return None;
      }
      var fileIdentifier := file[..IDENTIFIER_SIZE];
      if fileIdentifier != accepted && fileIdentifier != WILDCARD {
        return None;
      }
      var made := new Loader(file, accepted);
      loader := Some(made);
    }

    method ParseTree() returns (ok: bool)
      requires |fileContents| > IDENTIFIER_SIZE + 3
      modifies this`root
      ensures ok == ParseFile(fileContents).Parsed?
      ensures ok ==> root == ParseFile(fileContents).root
    {
      var it := IDENTIFIER_SIZE;
      if fileContents[it] != START {
        return false;
      }
      it := it + 1;
      root := Node(fileContents[it], it + 1, it + 1, []);
      it := it + 1;
      var parseStack := [root];
      ghost var result := Run(fileContents, it, parseStack, root);
      while it < |fileContents|
        invariant 0 <= it && Run(fileContents, it, parseStack, root) == result
        decreases |fileContents| - it
      {
        if fileContents[it] == START {
          if parseStack == [] {
            return false;
          }
          var top := parseStack[|parseStack| - 1];
          if top.children == [] {
            top := top.(propsEnd := it);
          }
          if it + 1 == |fileContents| {
            return false;
          }
          var child := Node(fileContents[it + 1], it + 2, it + 2, []);
          parseStack := parseStack[..|parseStack| - 1] + [top, child];
          it := it + 1;
        } else if fileContents[it] == END {
          if parseStack == [] {
            return false;
          }
          var top := parseStack[|parseStack| - 1];
          if top.children == [] {
            top := top.(propsEnd := it);
          }
          parseStack := parseStack[..|parseStack| - 1];
          if parseStack == [] {
            root := top;
          } else {
            var parent := parseStack[|parseStack| - 1];
            parseStack := parseStack[..|parseStack| - 1] + [parent.(children := parent.children + [top])];
          }
        } else if fileContents[it] == ESCAPE {
          it := it + 1;
          if it == |fileContents| {
            return false;
          }
        }
        it := it + 1;
      }
      ok := parseStack == [];
    }

    /** The property bytes of a node without their escapes; a node without property bytes has none. */
    method GetProps(node: Node) returns (ok: bool, props: seq<Byte>)
      requires node.propsBegin <= node.propsEnd <= |fileContents|
      modifies this`propBuffer
      ensures ok <==> node.propsBegin < node.propsEnd
      ensures ok ==> props == Unescape(fileContents[node.propsBegin..node.propsEnd], false)
    {
      var size := node.propsEnd - node.propsBegin;
      if size == 0 {
        return false, [];
      }
      propBuffer := [];
      var lastEscaped := false;
      var i := node.propsBegin;
      ghost var all := Unescape(fileContents[node.propsBegin..node.propsEnd], false);
      while i < node.propsEnd
        invariant node.propsBegin <= i <= node.propsEnd
        invariant propBuffer + Unescape(fileContents[i..node.propsEnd], lastEscaped) == all
      {
        var byte := fileContents[i];
        assert fileContents[i..node.propsEnd][1..] == fileContents[i + 1..node.propsEnd];
        lastEscaped := byte == ESCAPE && !lastEscaped;
        if !lastEscaped {
          propBuffer := propBuffer + [byte];
        }
        i := i + 1;
      }
      ok, props := true, propBuffer;
    }
  }

  // ---------------------------------------------------------------- the stack parser is the recursive descent

  /** Bytes that are no markers do not change the stack. */
  lemma {:induction false} RunGap(file: seq<Byte>, i: nat, stack: seq<Node>, root: Node)
    requires stack != []
    ensures Run(file, i, stack, root) ==
            if ScanGap(file, i) == None then Invalid else Run(file, ScanGap(file, i).value, stack, root)
    decreases |file| - i
  {
    if i < |file| && !IsMarker(file[i]) {
      if file[i] == ESCAPE {
        if i + 1 < |file| { RunGap(file, i + 2, stack, root); }
      } else {
        RunGap(file, i + 1, stack, root);
      }
    }
  }

  /** After the root is closed only stray bytes may follow. */
  lemma {:induction false} RunTail(file: seq<Byte>, i: nat, root: Node)
    ensures Run(file, i, [], root) == if Quiet(file, i) then Parsed(root) else Invalid
    decreases |file| - i
  {
    if i < |file| && !IsMarker(file[i]) {
      if file[i] == ESCAPE {
        if i + 1 < |file| { RunTail(file, i + 2, root); }
      } else {
        RunTail(file, i + 1, root);
      }
    }
  }

  /** Top node t, with children read up to the marker at e, is closed where the descent says it is. */
  lemma {:induction false} RunKids(file: seq<Byte>, e: nat, below: seq<Node>, t: Node, root: Node)
    requires e < |file| && IsMarker(file[e])
    ensures var kids := ReadKids(file, e);
      Run(file, e, below + [t], root) ==
        if kids == None then Invalid
        else
          var done := Closed(t, e).(children := t.children + kids.value.0);
          var (stack', root') := Finished(below, done, root);
          Run(file, kids.value.1 + 1, stack', root')
    decreases |file| - e, 1
  {
    var stack := below + [t];
    assert stack[|stack| - 1] == t && stack[..|stack| - 1] == below;
    if file[e] == END {
      assert t.children + [] == t.children;
    } else {
      var t1 := Closed(t, e);
      if e + 1 < |file| {
        var c := Node(file[e + 1], e + 2, e + 2, []);
        assert Push(file, stack, e) == (below + [t1]) + [c];
        RunNode(file, e, below, t1, root);
      }
    }
  }

  /** A finished node joins its parent, or is the root. */
  function Finished(below: seq<Node>, done: Node, root: Node): (r: (seq<Node>, Node)) {
    if below == [] then ([], done)
    else
      var parent := below[|below| - 1];
      (below[..|below| - 1] + [parent.(children := parent.children + [done])], root)
  }

  /** The child that starts at e and everything after it inside its parent t1. */
  lemma {:induction false} RunNode(file: seq<Byte>, e: nat, below: seq<Node>, t1: Node, root: Node)
    requires e + 1 < |file| && file[e] == START
    ensures var kids := ReadKids(file, e);
      Run(file, e + 2, (below + [t1]) + [Node(file[e + 1], e + 2, e + 2, [])], root) ==
        if kids == None then Invalid
        else
          var done := t1.(children := t1.children + kids.value.0);
          var (stack', root') := Finished(below, done, root);
          Run(file, kids.value.1 + 1, stack', root')
    decreases |file| - e, 0
  {
    hide Run, ScanGap;
    var c := Node(file[e + 1], e + 2, e + 2, []);
    var stack := below + [t1];
    RunGap(file, e + 2, stack + [c], root);
    var first := ScanGap(file, e + 2);
    if first.Some? {
      RunKids(file, first.value, stack, c, root);
      var inner := ReadKids(file, first.value);
      if inner.Some? {
        var n := ReadNode(file, e).value.0;
        var t2 := t1.(children := t1.children + [n]);
        assert Closed(c, first.value).(children := c.children + inner.value.0) == n;
        assert Finished(stack, n, root) == (below + [t2], root) by {
          assert stack[|stack| - 1] == t1 && stack[..|stack| - 1] == below;
        }
        var j := inner.value.1 + 1;
        RunGap(file, j, below + [t2], root);
        var next := ScanGap(file, j);
        if next.Some? {
          RunKids(file, next.value, below, t2, root);
          var rest := ReadKids(file, next.value);
          if rest.Some? {
            assert t2.children + rest.value.0 == t1.children + ([n] + rest.value.0);
          }
        }
      }
    }
  }

  /**
   * The loader accepts a file exactly when a node can be read after the identifier and only stray
   * bytes follow it, and then it returns that node.
   */
  lemma ParseIsDescent(file: seq<Byte>)
    requires |file| > IDENTIFIER_SIZE + 3
    ensures ParseFile(file) ==
      if file[4] != START then Invalid
      else
        var r := ReadNode(file, 4);
        if r.Some? && Quiet(file, r.value.1) then Parsed(r.value.0) else Invalid
  {
    if file[4] == START {
      var root := Node(file[5], 6, 6, []);
      RunGap(file, 6, [root], root);
      var e := ScanGap(file, 6);
      if e.Some? {
        assert [] + [root] == [root];
        RunKids(file, e.value, [], root, root);
        var kids := ReadKids(file, e.value);
        if kids.Some? {
          var n := ReadNode(file, 4).value.0;
          assert Closed(root, e.value).(children := root.children + kids.value.0) == n;
          RunTail(file, kids.value.1 + 1, n);
        }
      }
    }
  }

  // ---------------------------------------------------------------- round trip

  /** A file that was written for a tree is parsed back to that tree, whatever bytes the properties hold. */
  lemma LoadRoundTrip(identifier: seq<Byte>, t: Tree)
    requires |identifier| == IDENTIFIER_SIZE
    ensures var file := identifier + Encode(t);
      && (Opens(file, identifier) <==> t.props != [] || t.kids != [])
      && (Opens(file, identifier) ==> ParseFile(file).Parsed? && View(file, ParseFile(file).root) == t)
  {
    var file := identifier + Encode(t);
    assert file[..IDENTIFIER_SIZE] == identifier;
    EncodeLength(t);
    if |file| > IDENTIFIER_SIZE + 3 {
      assert Holds(file, 4, Encode(t)) by { assert file[4..4 + |Encode(t)|] == Encode(t); }
      ReadEncoded(file, 4, t);
      ParseIsDescent(file);
    }
  }

  lemma EncodeLength(t: Tree)
    ensures |Encode(t)| > 3 <==> t.props != [] || t.kids != []
  {
  }

  // ---------------------------------------------------------------- the property ranges of an accepted file

  /** The property ranges of a node and everything below it, outermost and leftmost first. */
  function Ranges(n: Node): seq<(nat, nat)>
    decreases n, 0
  {
    [(n.propsBegin, n.propsEnd)] + RangesAll(n.children)
  }

  function RangesAll(ns: seq<Node>): seq<(nat, nat)>
    decreases ns, 1
  {
    if ns == [] then [] else
      assert ns[0] in ns;
      Ranges(ns[0]) + RangesAll(ns[1..])
  }

  /** Ranges inside (lo, hi), each ended by its first unescaped marker, apart from each other and in order. */
  predicate InOrder(file: seq<Byte>, rs: seq<(nat, nat)>, lo: nat, hi: nat) {
    && (forall k :: 0 <= k < |rs| ==> lo + 2 <= rs[k].0 <= rs[k].1 < hi && ScanGap(file, rs[k].0) == Some(rs[k].1))
    && (forall a, b :: 0 <= a < b < |rs| ==> rs[a].1 + 2 <= rs[b].0)
  }

  lemma InOrderConcat(file: seq<Byte>, rs: seq<(nat, nat)>, ss: seq<(nat, nat)>, lo: nat, mid: nat, mid': nat, hi: nat)
    requires InOrder(file, rs, lo, mid) && InOrder(file, ss, mid', hi) && lo <= mid <= mid' + 1 && mid' <= hi
    requires mid <= hi && lo <= mid'
    ensures InOrder(file, rs + ss, lo, hi)
  {
  }

  lemma {:induction false} NodeInOrder(file: seq<Byte>, i: nat)
    requires i < |file| && file[i] == START && ReadNode(file, i).Some?
    ensures InOrder(file, Ranges(ReadNode(file, i).value.0), i, ReadNode(file, i).value.1)
    decreases |file| - i, 0
  {
    var e := ScanGap(file, i + 2).value;
    var kids := ReadKids(file, e).value;
    KidsInOrder(file, e);
    assert InOrder(file, [(i + 2, e)], i, e + 1);
    InOrderConcat(file, [(i + 2, e)], RangesAll(kids.0), i, e + 1, e, kids.1 + 1);
  }

  lemma {:induction false} KidsInOrder(file: seq<Byte>, e: nat)
    requires e < |file| && IsMarker(file[e]) && ReadKids(file, e).Some?
    ensures InOrder(file, RangesAll(ReadKids(file, e).value.0), e, ReadKids(file, e).value.1 + 1)
    decreases |file| - e, 1
  {
    if file[e] == START {
      var first := ReadNode(file, e).value;
      var next := ScanGap(file, first.1).value;
      var rest := ReadKids(file, next).value;
      NodeInOrder(file, e);
      KidsInOrder(file, next);
      assert ([first.0] + rest.0)[1..] == rest.0;
      InOrderConcat(file, Ranges(first.0), RangesAll(rest.0), e, first.1, next, rest.1 + 1);
    }
  }

  /**
   * In any accepted file the property ranges lie inside the file, each ends at the first unescaped
   * marker after its start, and no two of them touch.
   */
  lemma AcceptedRanges(file: seq<Byte>)
    requires |file| > IDENTIFIER_SIZE + 3 && ParseFile(file).Parsed?
    ensures InOrder(file, Ranges(ParseFile(file).root), IDENTIFIER_SIZE, |file|)
  {
    ParseIsDescent(file);
    NodeInOrder(file, 4);
  }
}
