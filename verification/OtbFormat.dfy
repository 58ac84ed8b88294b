// The OTB node file format (src/fileloader.h, src/fileloader.cpp): markers, escaping, and the grammar.
//
// The grammar is given by a recursive descent: a node is START, a type byte, its properties, its
// children with possible stray bytes between them, and END.  Escaped bytes never act as markers.
// Encode is the writer's side; the lemmas show that reading an encoding gives the tree back.
module OtbFormat {
  import opened Options

  type Byte = b: int | 0 <= b < 256

  const ESCAPE: Byte := 0xFD
  const START: Byte := 0xFE
  const END: Byte := 0xFF

  /** A parsed node: its type byte, the range of its property bytes in the file, and its children. */
  datatype Node = Node(kind: Byte, propsBegin: nat, propsEnd: nat, children: seq<Node>)

  /** What a node file stands for. */
  datatype Tree = Tree(kind: Byte, props: seq<Byte>, kids: seq<Tree>)

  predicate IsMarker(b: Byte) { b == START || b == END }

  // ---------------------------------------------------------------- the grammar

  /** The first unescaped marker at or after i. */
  function ScanGap(file: seq<Byte>, i: nat): (r: Option<nat>)
    ensures r.Some? ==> i <= r.value < |file| && IsMarker(file[r.value])
    decreases |file| - i
  {
    if i >= |file| then None
    else if IsMarker(file[i]) then Some(i)
    else if file[i] == ESCAPE then (if i + 1 >= |file| then None else ScanGap(file, i + 2))
    else ScanGap(file, i + 1)
  }

  /** No unescaped marker from i to the end, and no escape left dangling. */
  predicate Quiet(file: seq<Byte>, i: nat)
    decreases |file| - i
  {
    i >= |file| ||
    (!IsMarker(file[i]) &&
     if file[i] == ESCAPE then i + 1 < |file| && Quiet(file, i + 2) else Quiet(file, i + 1))
  }

  /** The node that starts at i, and the position after its END. */
  function ReadNode(file: seq<Byte>, i: nat): (r: Option<(Node, nat)>)
    requires i < |file| && file[i] == START
    ensures r.Some? ==> i + 3 <= r.value.1 <= |file|
    decreases |file| - i, 0
  {
    if i + 1 >= |file| then None else
    var e := ScanGap(file, i + 2);
    if e == None then None else
    var kids := ReadKids(file, e.value);
    if kids == None then None
    else Some((Node(file[i + 1], i + 2, e.value, kids.value.0), kids.value.1 + 1))
  }

  /** The children whose first marker is at e, and the position of the END that closes their parent. */
  function ReadKids(file: seq<Byte>, e: nat): (r: Option<(seq<Node>, nat)>)
    requires e < |file| && IsMarker(file[e])
    ensures r.Some? ==> e <= r.value.1 < |file| && file[r.value.1] == END
    decreases |file| - e, 1
  {
    if file[e] == END then Some(([], e)) else
    var first := ReadNode(file, e);
    if first == None then None else
    var next := ScanGap(file, first.value.1);
    if next == None then None else
    var rest := ReadKids(file, next.value);
    if rest == None then None
    else Some(([first.value.0] + rest.value.0, rest.value.1))
  }

  // ---------------------------------------------------------------- writing

  function Escape(props: seq<Byte>): seq<Byte> {
    if props == [] then []
    else (if props[0] == ESCAPE || IsMarker(props[0]) then [ESCAPE, props[0]] else [props[0]]) + Escape(props[1..])
  }

  function Encode(t: Tree): (s: seq<Byte>)
    ensures |s| >= 3 && s[0] == START
    decreases t, 0
  {
    [START, t.kind] + Escape(t.props) + EncodeAll(t.kids) + [END]
  }

  function EncodeAll(ts: seq<Tree>): (s: seq<Byte>)
    ensures ts != [] ==> s != [] && s[0] == START
    decreases ts, 1
  {
    if ts == [] then [] else
      assert ts[0] in ts;
      Encode(ts[0]) + EncodeAll(ts[1..])
  }

  // ---------------------------------------------------------------- reading properties

  /** The filter of getProps: an escape byte is dropped unless it was itself escaped. */
  function Unescape(s: seq<Byte>, lastEscaped: bool): seq<Byte> {
    if s == [] then []
    else
      var escapes := s[0] == ESCAPE && !lastEscaped;
      (if escapes then [] else [s[0]]) + Unescape(s[1..], escapes)
  }

  lemma {:induction false} UnescapeEscape(props: seq<Byte>)
    ensures Unescape(Escape(props), false) == props
  {
    if props != [] {
      var b, rest := props[0], Escape(props[1..]);
      UnescapeEscape(props[1..]);
      if b == ESCAPE || IsMarker(b) {
        assert Escape(props) == [ESCAPE, b] + rest;
        assert Escape(props)[1..] == [b] + rest && ([b] + rest)[1..] == rest;
      } else {
        assert Escape(props)[1..] == rest;
      }
    }
  }

  /** What a parsed node stands for. */
  function View(file: seq<Byte>, n: Node): Tree
    decreases n, 0
  {
    Tree(n.kind,
         if n.propsBegin <= n.propsEnd <= |file| then Unescape(file[n.propsBegin..n.propsEnd], false) else [],
         ViewAll(file, n.children))
  }

  function ViewAll(file: seq<Byte>, ns: seq<Node>): seq<Tree>
    decreases ns, 1
  {
    if ns == [] then [] else
      assert ns[0] in ns;
      [View(file, ns[0])] + ViewAll(file, ns[1..])
  }

  // ---------------------------------------------------------------- reading what was written

  /** file holds s from position i on. */
  predicate Holds(file: seq<Byte>, i: nat, s: seq<Byte>) {
    i + |s| <= |file| && file[i..i + |s|] == s
  }

  lemma HoldsSplit(file: seq<Byte>, i: nat, s: seq<Byte>, t: seq<Byte>)
    requires Holds(file, i, s + t)
    ensures Holds(file, i, s) && Holds(file, i + |s|, t)
  {
    assert file[i..i + |s + t|][..|s|] == s && file[i..i + |s + t|][|s|..] == t;
    assert file[i..i + |s|] == file[i..i + |s + t|][..|s|];
    assert file[i + |s|..i + |s| + |t|] == file[i..i + |s + t|][|s|..];
  }

  /** Escaped properties contain no marker that the scan would stop at. */
  lemma {:induction false} ScanEscaped(file: seq<Byte>, i: nat, props: seq<Byte>)
    requires Holds(file, i, Escape(props))
    ensures ScanGap(file, i) == ScanGap(file, i + |Escape(props)|)
    decreases |props|
  {
    if props != [] {
      var head := if props[0] == ESCAPE || IsMarker(props[0]) then [ESCAPE, props[0]] else [props[0]];
      HoldsSplit(file, i, head, Escape(props[1..]));
      assert file[i] == file[i..i + |head|][0];
      ScanEscaped(file, i + |head|, props[1..]);
    }
  }

  lemma {:induction false} ReadEncoded(file: seq<Byte>, i: nat, t: Tree)
    requires Holds(file, i, Encode(t))
    ensures file[i] == START
    ensures var r := ReadNode(file, i);
      && r.Some? && r.value.1 == i + |Encode(t)| && View(file, r.value.0) == t
    decreases t, 0
  {
    hide ScanGap, ReadKids, EncodeAll, ViewAll, Escape, Unescape;
    var props, kids := Escape(t.props), EncodeAll(t.kids);
    var e := i + 2 + |props|;
    assert Encode(t) == [START, t.kind] + (props + (kids + [END]));
    HoldsSplit(file, i, [START, t.kind], props + (kids + [END]));
    HoldsSplit(file, i + 2, props, kids + [END]);
    assert file[i] == file[i..i + 2][0] && file[i + 1] == file[i..i + 2][1];
    ScanEscaped(file, i + 2, t.props);
    ReadEncodedAll(file, e, t.kids);
    UnescapeEscape(t.props);
  }

  lemma EncodeCons(ts: seq<Tree>)
    requires ts != []
    ensures EncodeAll(ts) + [END] == Encode(ts[0]) + (EncodeAll(ts[1..]) + [END])
    ensures |EncodeAll(ts)| == |Encode(ts[0])| + |EncodeAll(ts[1..])|
  {
  }

  lemma ReadNone(file: seq<Byte>, e: nat)
    requires Holds(file, e, EncodeAll([]) + [END])
    ensures ScanGap(file, e) == Some(e)
    ensures var r := ReadKids(file, e);
      && r.Some? && r.value.1 == e + |EncodeAll([])| && ViewAll(file, r.value.0) == []
  {
    assert EncodeAll([]) + [END] == [END];
    assert file[e] == file[e..e + 1][0];
  }

  lemma {:induction false} ReadEncodedAll(file: seq<Byte>, e: nat, ts: seq<Tree>)
    requires Holds(file, e, EncodeAll(ts) + [END])
    ensures ScanGap(file, e) == Some(e)
    ensures var r := ReadKids(file, e);
      && r.Some? && r.value.1 == e + |EncodeAll(ts)| && ViewAll(file, r.value.0) == ts
    decreases ts, 1
  {
    if ts == [] {
      ReadNone(file, e);
    } else {
      hide *;
      EncodeCons(ts);
      var rest := EncodeAll(ts[1..]) + [END];
      HoldsSplit(file, e, Encode(ts[0]), rest);
      ReadEncoded(file, e, ts[0]);
      ReadEncodedAll(file, e + |Encode(ts[0])|, ts[1..]);
      ScanHere(file, e);
      KidsCons(file, e, e + |Encode(ts[0])|);
    }
  }

  lemma ScanHere(file: seq<Byte>, e: nat)
    requires e < |file| && IsMarker(file[e])
    ensures ScanGap(file, e) == Some(e)
  {
  }

  /** Reading the first child and the rest separately. */
  lemma KidsCons(file: seq<Byte>, e: nat, k: nat)
    requires e < |file| && file[e] == START
    requires ReadNode(file, e).Some? && ReadNode(file, e).value.1 == k && ScanGap(file, k) == Some(k)
    requires ReadKids(file, k).Some?
    ensures var first, rest, all := ReadNode(file, e).value, ReadKids(file, k).value, ReadKids(file, e);
      && all.Some? && all.value.1 == rest.1
      && ViewAll(file, all.value.0) == [View(file, first.0)] + ViewAll(file, rest.0)
  {
    var first, rest := ReadNode(file, e).value.0, ReadKids(file, k).value.0;
    assert ReadKids(file, e).value.0 == [first] + rest;
    assert ([first] + rest)[1..] == rest;
  }
}
