/** The OTB node format of src/fileloader.cpp: an escaped, bracketed encoding of trees and its stack machine. */
module OtbFormat {

  type byte = b: int | 0 <= b < 256

  const ESCAPE: byte := 0xFD
  const START: byte := 0xFE
  const END: byte := 0xFF

  const WILDCARD: seq<byte> := [0, 0, 0, 0]

  /** sizeof(Identifier) + START + type + END */
  const MINIMAL_SIZE: nat := 7

  /** OTB::Node: the properties are a range of the file. */
  datatype Node = Node(children: seq<Node>, propsBegin: nat, propsEnd: nat, kind: byte)

  datatype Result<+T> = Ok(value: T) | InvalidOtbFormat

  // ----- trees and their encoding -----

  datatype Tree = Tree(kind: byte, props: seq<byte>, children: seq<Tree>)

  function Escape(props: seq<byte>): seq<byte> {
    if props == [] then []
    else (if props[0] >= ESCAPE then [ESCAPE, props[0]] else [props[0]]) + Escape(props[1..])
  }

  function Encode(t: Tree): (s: seq<byte>)
    ensures |s| >= 3 && s[0] == START
    decreases t, 0
  {
    [START, t.kind] + Escape(t.props) + EncodeAll(t.children) + [END]
  }

  function EncodeAll(ts: seq<Tree>): seq<byte>
    decreases ts
  {
    if ts == [] then [] else Encode(ts[0]) + EncodeAll(ts[1..])
  }

  /** The node for t when its encoding begins at position i of the file. */
  function Placed(t: Tree, i: nat): Node
    decreases t, 0
  {
    var propsEnd := i + 2 + |Escape(t.props)|;
    Node(PlacedAll(t.children, propsEnd), i + 2, propsEnd, t.kind)
  }

  function PlacedAll(ts: seq<Tree>, i: nat): seq<Node>
    decreases ts
  {
    if ts == [] then [] else [Placed(ts[0], i)] + PlacedAll(ts[1..], i + |Encode(ts[0])|)
  }

  // ----- the stack machine, with the open nodes as a sequence -----

  datatype Machine =
    | Open(frames: seq<Node>)    // the open nodes, the root first; each is the next child of the one before
    | Closed(root: Node)
    | Failed

  /** The properties of a node end where its first child begins, or where it ends itself. */
  function Bounded(n: Node, i: nat): Node {
    if n.children == [] then n.(propsEnd := i) else n
  }

  function OpenChild(frames: seq<Node>, i: nat, kind: byte): Machine
    requires frames != []
  {
    Open(frames[..|frames| - 1] + [Bounded(frames[|frames| - 1], i), Node([], i + 2, 0, kind)])
  }

  function CloseNode(frames: seq<Node>, i: nat): Machine
    requires frames != []
  {
    var top := Bounded(frames[|frames| - 1], i);
    if |frames| == 1 then Closed(top)
    else
      var below := frames[|frames| - 2];
      Open(frames[..|frames| - 2] + [below.(children := below.children + [top])])
  }

  /** The loop of parseTree from position i on. */
  function Parse(file: seq<byte>, i: nat, m: Machine): Machine
    requires m.Open? ==> m.frames != []
    decreases |file| - i
  {
    if m.Failed? || i >= |file| then m
    else if file[i] == START then
      if m.Closed? || i + 1 == |file| then Failed
      else Parse(file, i + 2, OpenChild(m.frames, i, file[i + 1]))
    else if file[i] == END then
      if m.Closed? then Failed else Parse(file, i + 1, CloseNode(m.frames, i))
    else if file[i] == ESCAPE then
      if i + 1 == |file| then Failed else Parse(file, i + 2, m)
    else Parse(file, i + 1, m)
  }

  /** The constructor of Loader. */
  predicate Accepts(file: seq<byte>, accepted: seq<byte>)
    requires |accepted| == 4
  {
    |file| > MINIMAL_SIZE && (file[..4] == accepted || file[..4] == WILDCARD)
  }

  /** parseTree as a function of the file. */
  function TreeOf(file: seq<byte>): Result<Node>
    requires |file| > MINIMAL_SIZE
  {
    if file[4] != START then InvalidOtbFormat
    else
      var m := Parse(file, 6, Open([Node([], 6, 0, file[5])]));
      if m.Closed? then Ok(m.root) else InvalidOtbFormat
  }

  /** What getProps keeps of a property range. */
  function Unescape(s: seq<byte>, lastEscaped: bool): seq<byte> {
    if s == [] then []
    else
      var escaped := s[0] == ESCAPE && !lastEscaped;
      (if escaped then [] else [s[0]]) + Unescape(s[1..], escaped)
  }

  lemma UnescapeStep(props: seq<byte>, s: seq<byte>, lastEscaped: bool)
    requires s != []
    ensures var escaped := s[0] == ESCAPE && !lastEscaped;
            props + Unescape(s, lastEscaped) == (if escaped then props else props + [s[0]]) + Unescape(s[1..], escaped)
  {
    var escaped := s[0] == ESCAPE && !lastEscaped;
    assert props + ([s[0]] + Unescape(s[1..], escaped)) == props + [s[0]] + Unescape(s[1..], escaped);
  }

  // ----- round trip -----

  /** part stands at position i of the file. */
  ghost predicate StandsAt(file: seq<byte>, i: nat, part: seq<byte>) {
    i + |part| <= |file| && forall k {:trigger part[k]} | 0 <= k < |part| :: file[i + k] == part[k]
  }

  lemma StandsApart(file: seq<byte>, i: nat, a: seq<byte>, b: seq<byte>)
    requires StandsAt(file, i, a + b)
    ensures StandsAt(file, i, a) && StandsAt(file, i + |a|, b)
  {
    assert forall k | 0 <= k < |a| :: (a + b)[k] == a[k];
    assert forall k | 0 <= k < |b| :: (a + b)[|a| + k] == b[k];
  }

  /** Escaped bytes do not move the machine. */
  lemma {:induction false} ParseEscaped(file: seq<byte>, i: nat, props: seq<byte>, m: Machine)
    requires StandsAt(file, i, Escape(props)) && m.Open? && m.frames != []
    ensures Parse(file, i, m) == Parse(file, i + |Escape(props)|, m)
    decreases |props|
  {
    if props != [] {
      var head := if props[0] >= ESCAPE then [ESCAPE, props[0]] else [props[0]];
      StandsApart(file, i, head, Escape(props[1..]));
      assert file[i] == head[0];
      ParseEscaped(file, i + |head|, props[1..], m);
    }
  }

  /** f with the nodes for ts, whose encodings begin at position i, as further children. */
  ghost function Grown(f: Node, ts: seq<Tree>, i: nat): Node {
    if ts == [] then f else Bounded(f, i).(children := f.children + PlacedAll(ts, i))
  }

  /** Where the parts of an encoded tree stand. */
  lemma Layout(file: seq<byte>, i: nat, t: Tree) returns (begin: nat, end: nat)
    requires StandsAt(file, i, Encode(t))
    ensures i + 2 <= |file| && file[i] == START && file[i + 1] == t.kind
    ensures begin == i + 2 + |Escape(t.props)| && StandsAt(file, i + 2, Escape(t.props))
    ensures end == begin + |EncodeAll(t.children)| && StandsAt(file, begin, EncodeAll(t.children))
    ensures end + 1 == i + |Encode(t)| <= |file| && file[end] == END
  {
    var props, kids := Escape(t.props), EncodeAll(t.children);
    begin, end := i + 2 + |props|, i + 2 + |props| + |kids|;
    assert Encode(t) == [START, t.kind] + (props + (kids + [END]));
    StandsApart(file, i, [START, t.kind], props + (kids + [END]));
    StandsApart(file, i + 2, props, kids + [END]);
    StandsApart(file, begin, kids, [END]);
    assert file[i] == [START, t.kind][0] && file[i + 1] == [START, t.kind][1];
    assert file[end] == [END][0];
  }

  /** From behind the type byte of an encoded tree to behind its END. */
  lemma {:induction false} ParseBody(file: seq<byte>, i: nat, t: Tree, under: seq<Node>)
    requires StandsAt(file, i, Encode(t))
    ensures |Encode(t)| >= 3
    ensures var begin := i + 2 + |Escape(t.props)|;
            var grown := Grown(Node([], i + 2, 0, t.kind), t.children, begin);
            (Parse(file, i + 2, Open(under + [Node([], i + 2, 0, t.kind)]))
             == Parse(file, i + |Encode(t)|, CloseNode(under + [grown], i + |Encode(t)| - 1)))
    decreases t, 1
  {
    var begin, end := Layout(file, i, t);
    var top := Node([], i + 2, 0, t.kind);
    ParseInside(file, i, t, under, top, begin, end);
    ParseEnd(file, end, under + [Grown(top, t.children, begin)]);
    assert end + 1 == i + |Encode(t)|;
  }

  /** The properties and the children. */
  lemma {:induction false} ParseInside(
      file: seq<byte>, i: nat, t: Tree, under: seq<Node>, top: Node, begin: nat, end: nat)
    requires begin == i + 2 + |Escape(t.props)| && StandsAt(file, i + 2, Escape(t.props))
    requires end == begin + |EncodeAll(t.children)| && StandsAt(file, begin, EncodeAll(t.children))
    ensures Parse(file, i + 2, Open(under + [top]))
         == Parse(file, end, Open(under + [Grown(top, t.children, begin)]))
    decreases t, 0
  {
    ParseEscaped(file, i + 2, t.props, Open(under + [top]));
    ParseAllEncoded(file, begin, t.children, under, top);
  }

  lemma ParseEnd(file: seq<byte>, end: nat, frames: seq<Node>)
    requires end < |file| && file[end] == END && frames != []
    ensures Parse(file, end, Open(frames)) == Parse(file, end + 1, CloseNode(frames, end))
  {
  }

  lemma {:induction false} ParseEncoded(file: seq<byte>, i: nat, t: Tree, below: seq<Node>, f: Node)
    requires StandsAt(file, i, Encode(t))
    ensures Parse(file, i, Open(below + [f]))
         == Parse(file, i + |Encode(t)|, Open(below + [Bounded(f, i).(children := f.children + [Placed(t, i)])]))
    decreases t, 2
  {
    var begin, end := Layout(file, i, t);
    var top, under := Node([], i + 2, 0, t.kind), below + [Bounded(f, i)];
    ParseStart(file, i, below, f, under, top);
    ParseBody(file, i, t, under);
    GrownIsPlaced(t, i);
    CloseGrown(under, Grown(top, t.children, begin), below, Bounded(f, i), end, Placed(t, i));
    assert i + |Encode(t)| == end + 1;
  }

  lemma ParseStart(file: seq<byte>, i: nat, below: seq<Node>, f: Node, under: seq<Node>, top: Node)
    requires i + 1 < |file| && file[i] == START && top == Node([], i + 2, 0, file[i + 1])
    requires under == below + [Bounded(f, i)]
    ensures Parse(file, i, Open(below + [f])) == Parse(file, i + 2, Open(under + [top]))
  {
    var frames := below + [f];
    assert frames[..|frames| - 1] == below && frames[|frames| - 1] == f;
    assert below + [Bounded(f, i), top] == under + [top];
  }

  /** A node that has got all its children and is closed is the node for its tree. */
  lemma GrownIsPlaced(t: Tree, i: nat)
    ensures var begin := i + 2 + |Escape(t.props)|;
            Bounded(Grown(Node([], i + 2, 0, t.kind), t.children, begin), begin + |EncodeAll(t.children)|)
                == Placed(t, i)
  {
    var begin := i + 2 + |Escape(t.props)|;
    assert [] + PlacedAll(t.children, begin) == PlacedAll(t.children, begin);
  }

  lemma CloseGrown(under: seq<Node>, grown: Node, below: seq<Node>, f: Node, end: nat, n: Node)
    requires under == below + [f] && Bounded(grown, end) == n
    ensures CloseNode(under + [grown], end) == Open(below + [f.(children := f.children + [n])])
  {
    var frames := under + [grown];
    assert frames[..|frames| - 2] == below && frames[|frames| - 2] == f;
  }

  lemma {:induction false} ParseAllEncoded(file: seq<byte>, i: nat, ts: seq<Tree>, below: seq<Node>, f: Node)
    requires StandsAt(file, i, EncodeAll(ts))
    ensures Parse(file, i, Open(below + [f])) == Parse(file, i + |EncodeAll(ts)|, Open(below + [Grown(f, ts, i)]))
    decreases ts
  {
    if ts != [] {
      var j := i + |Encode(ts[0])|;
      StandsApart(file, i, Encode(ts[0]), EncodeAll(ts[1..]));
      ParseEncoded(file, i, ts[0], below, f);
      var f' := Bounded(f, i).(children := f.children + [Placed(ts[0], i)]);
      ParseAllEncoded(file, j, ts[1..], below, f');
      GrownMore(f, ts, i, f');
      var end := j + |EncodeAll(ts[1..])|;
      assert end == i + |EncodeAll(ts)|;
      assert Parse(file, i, Open(below + [f])) == Parse(file, end, Open(below + [Grown(f, ts, i)]));
    }
  }

  lemma GrownMore(f: Node, ts: seq<Tree>, i: nat, f': Node)
    requires ts != [] && f' == Bounded(f, i).(children := f.children + [Placed(ts[0], i)])
    ensures Grown(f', ts[1..], i + |Encode(ts[0])|) == Grown(f, ts, i)
  {
    var rest := PlacedAll(ts[1..], i + |Encode(ts[0])|);
    assert f.children + ([Placed(ts[0], i)] + rest) == f'.children + rest;
  }

  lemma {:induction false} UnescapeEscape(props: seq<byte>)
    ensures Unescape(Escape(props), false) == props
  {
    if props != [] {
      var head := if props[0] >= ESCAPE then [ESCAPE, props[0]] else [props[0]];
      var tail := Escape(props[1..]);
      UnescapeEscape(props[1..]);
      assert (head + tail)[1..] == head[1..] + tail;
      if props[0] >= ESCAPE {
        assert (head[1..] + tail)[1..] == tail;
      }
    }
  }

  /** n carries what t says: kinds, unescaped properties and children, in order. */
  ghost predicate Represents(file: seq<byte>, n: Node, t: Tree)
    decreases t, 0
  {
    && n.kind == t.kind && n.propsBegin <= n.propsEnd <= |file|
    && Unescape(file[n.propsBegin..n.propsEnd], false) == t.props
    && (n.propsBegin == n.propsEnd <==> t.props == [])
    && RepresentAll(file, n.children, t.children)
  }

  ghost predicate RepresentAll(file: seq<byte>, ns: seq<Node>, ts: seq<Tree>)
    decreases ts
  {
    && |ns| == |ts|
    && (ts != [] ==> Represents(file, ns[0], ts[0]) && RepresentAll(file, ns[1..], ts[1..]))
  }

  lemma {:induction false} PlacedRepresents(file: seq<byte>, i: nat, t: Tree)
    requires StandsAt(file, i, Encode(t))
    ensures Represents(file, Placed(t, i), t)
    decreases t, 0
  {
    var begin, end := Layout(file, i, t);
    UnescapeEscape(t.props);
    assert file[i + 2..begin] == Escape(t.props);
    PlacedRepresentAll(file, begin, t.children);
  }

  lemma {:induction false} PlacedRepresentAll(file: seq<byte>, i: nat, ts: seq<Tree>)
    requires StandsAt(file, i, EncodeAll(ts))
    ensures RepresentAll(file, PlacedAll(ts, i), ts)
    decreases ts
  {
    if ts != [] {
      StandsApart(file, i, Encode(ts[0]), EncodeAll(ts[1..]));
      PlacedRepresents(file, i, ts[0]);
      PlacedRepresentAll(file, i + |Encode(ts[0])|, ts[1..]);
      var rest := PlacedAll(ts[1..], i + |Encode(ts[0])|);
      assert ([Placed(ts[0], i)] + rest)[1..] == rest;
    }
  }

  /** A node without properties and children: its file is too short for the loader. */
  predicate Bare(t: Tree) {
    t.props == [] && t.children == []
  }

  /**
   The file of a tree is loaded exactly when its identifier is accepted and the tree is not bare,
   and then the loaded nodes represent the tree.
   */
  lemma RoundTrip(t: Tree, identifier: seq<byte>, accepted: seq<byte>)
    requires |identifier| == |accepted| == 4
    ensures var file := identifier + Encode(t);
            && (Accepts(file, accepted) <==> (identifier == accepted || identifier == WILDCARD) && !Bare(t))
            && (Accepts(file, accepted) ==> TreeOf(file) == Ok(Placed(t, 4)) && Represents(file, Placed(t, 4), t))
  {
    var file := identifier + Encode(t);
    assert file[..4] == identifier && file[4..] == Encode(t);
    EncodedLength(t);
    if Accepts(file, accepted) {
      assert StandsAt(file, 4, Encode(t));
      PlacedRepresents(file, 4, t);
      ParseRoot(file, t);
    }
  }

  lemma EncodedLength(t: Tree)
    ensures |Encode(t)| == 3 <==> Bare(t)
  {
    if t.children != [] {
      assert |EncodeAll(t.children)| >= |Encode(t.children[0])|;
    }
  }

  lemma ParseRoot(file: seq<byte>, t: Tree)
    requires StandsAt(file, 4, Encode(t)) && |file| == 4 + |Encode(t)| > MINIMAL_SIZE
    ensures TreeOf(file) == Ok(Placed(t, 4))
  {
    var begin, end := Layout(file, 4, t);
    var top := Node([], 6, 0, t.kind);
    var grown := Grown(top, t.children, begin);
    ParseWhole(file, t, top, grown, begin, end);
    GrownIsPlaced(t, 4);
    CloseRoot(grown, end, Placed(t, 4));
    RootIs(file, top, grown, end, Placed(t, 4));
  }

  lemma ParseWhole(file: seq<byte>, t: Tree, top: Node, grown: Node, begin: nat, end: nat)
    requires StandsAt(file, 4, Encode(t)) && |file| == 4 + |Encode(t)| && begin == 6 + |Escape(t.props)|
    requires top == Node([], 6, 0, t.kind) && grown == Grown(top, t.children, begin) && end + 1 == |file|
    ensures Parse(file, 6, Open([top])) == Parse(file, |file|, CloseNode([grown], end))
  {
    ParseBody(file, 4, t, []);
    assert [] + [top] == [top] && [] + [grown] == [grown];
  }

  lemma RootIs(file: seq<byte>, top: Node, grown: Node, end: nat, n: Node)
    requires |file| > MINIMAL_SIZE && file[4] == START && top == Node([], 6, 0, file[5]) && end + 1 == |file|
    requires CloseNode([grown], end) == Closed(n)
    requires Parse(file, 6, Open([top])) == Parse(file, |file|, CloseNode([grown], end))
    ensures TreeOf(file) == Ok(n)
  {
  }

  lemma CloseRoot(grown: Node, end: nat, n: Node)
    requires Bounded(grown, end) == n
    ensures CloseNode([grown], end) == Closed(n)
  {
  }

  // ----- every file: the property ranges of loaded nodes lie in the file -----

  ghost predicate Sound(n: Node, size: nat) {
    n.propsBegin <= n.propsEnd <= size && forall c | c in n.children :: Sound(c, size)
  }

  /** An open node, when the loop is at position i. */
  ghost predicate SoundOpen(n: Node, i: nat, size: nat) {
    && n.propsBegin <= i && (n.children != [] ==> n.propsBegin <= n.propsEnd <= size)
    && forall c | c in n.children :: Sound(c, size)
  }

  /** An open node with an open child knows where its properties end. */
  ghost predicate SoundOuter(n: Node, i: nat, size: nat) {
    n.propsBegin <= n.propsEnd <= size && n.propsBegin <= i && forall c | c in n.children :: Sound(c, size)
  }

  ghost predicate SoundMachine(m: Machine, i: nat, size: nat) {
    match m
    case Open(frames) =>
      && frames != [] && SoundOpen(frames[|frames| - 1], i, size)
      && forall k {:trigger frames[k]} | 0 <= k < |frames| - 1 :: SoundOuter(frames[k], i, size)
    case Closed(root) => Sound(root, size)
    case Failed => true
  }

  lemma BoundedIsSound(n: Node, i: nat, size: nat)
    requires SoundOpen(n, i, size) && i <= size
    ensures Sound(Bounded(n, i), size) && SoundOuter(Bounded(n, i), i, size)
  {
  }

  lemma StepIsSound(frames: seq<Node>, i: nat, size: nat, kind: byte)
    requires SoundMachine(Open(frames), i, size) && i < size
    ensures SoundMachine(CloseNode(frames, i), i + 1, size)
    ensures SoundMachine(OpenChild(frames, i, kind), i + 2, size)
  {
    BoundedIsSound(frames[|frames| - 1], i, size);
    if |frames| > 1 {
      assert SoundOuter(frames[|frames| - 2], i, size);
    }
  }

  lemma {:induction false} ParseIsSound(file: seq<byte>, i: nat, m: Machine)
    requires (m.Open? ==> m.frames != []) && SoundMachine(m, i, |file|)
    ensures Parse(file, i, m).Closed? ==> Sound(Parse(file, i, m).root, |file|)
    decreases |file| - i
  {
    if !m.Failed? && i < |file| {
      if m.Open? {
        StepIsSound(m.frames, i, |file|, if i + 1 < |file| then file[i + 1] else 0);
      }
      if file[i] == START && m.Open? && i + 1 < |file| {
        ParseIsSound(file, i + 2, OpenChild(m.frames, i, file[i + 1]));
      } else if file[i] == END && m.Open? {
        ParseIsSound(file, i + 1, CloseNode(m.frames, i));
      } else if file[i] == ESCAPE && i + 1 < |file| {
        ParseIsSound(file, i + 2, m);
      } else if file[i] < ESCAPE {
        ParseIsSound(file, i + 1, m);
      }
    }
  }

  // ----- every file: which ones are trees -----

  datatype Token = Opening | Closing | Plain

  /** The file cut into tokens: 0xFE and a type, 0xFF, 0xFD and any byte, any other byte; an error if one is cut off. */
  ghost function Tokens(s: seq<byte>): Result<seq<Token>> {
    if s == [] then Ok([])
    else if s[0] == 0xFF then OneMore(Closing, Tokens(s[1..]))
    else if s[0] < 0xFD then OneMore(Plain, Tokens(s[1..]))
    else if |s| == 1 then InvalidOtbFormat
    else OneMore(if s[0] == 0xFE then Opening else Plain, Tokens(s[2..]))
  }

  ghost function OneMore(t: Token, ts: Result<seq<Token>>): Result<seq<Token>> {
    if ts.Ok? then Ok([t] + ts.value) else ts
  }

  /** How many more nodes have been opened than closed. */
  ghost function Height(ts: seq<Token>): int {
    if ts == [] then 0
    else Height(ts[1..]) + match ts[0] case Opening => 1 case Closing => -1 case Plain => 0
  }

  ghost predicate AllPlain(ts: seq<Token>) {
    forall k | 0 <= k < |ts| :: ts[k].Plain?
  }

  /** With h nodes open, the n-th token closes the last of them, and nothing is opened or closed after it. */
  ghost predicate ClosesAt(ts: seq<Token>, h: nat, n: nat) {
    && 0 < n <= |ts| && h + Height(ts[..n]) == 0 && AllPlain(ts[n..])
    && forall k | 0 <= k < n :: h + Height(ts[..k]) > 0
  }

  ghost predicate Closes(ts: seq<Token>, h: nat) {
    exists n: nat :: ClosesAt(ts, h, n)
  }

  lemma ClosesLater(ts: seq<Token>, h: nat, n: nat)
    requires ts != [] && h > 0 && n > 0 && h + Height(ts[..1]) > 0
    ensures ClosesAt(ts, h, n + 1) <==> ClosesAt(ts[1..], h + Height(ts[..1]), n)
  {
    var rest, h' := ts[1..], h + Height(ts[..1]);
    assert ts[..1][1..] == [];
    forall k | 0 <= k <= |rest|
      ensures h + Height(ts[..k + 1]) == h' + Height(rest[..k])
    {
      assert ts[..k + 1][1..] == rest[..k];
    }
    if n <= |rest| {
      assert ts[n + 1..] == rest[n..];
      assert h + Height(ts[..0]) == h;
      if ClosesAt(rest, h', n) {
        forall k | 0 <= k < n + 1
          ensures h + Height(ts[..k]) > 0
        {
          if k > 0 {
            assert h' + Height(rest[..k - 1]) > 0;
          }
        }
      }
      if ClosesAt(ts, h, n + 1) {
        forall k | 0 <= k < n
          ensures h' + Height(rest[..k]) > 0
        {
          assert h + Height(ts[..k + 1]) > 0;
        }
      }
    }
  }

  /** Closing is a matter of one token and the rest. */
  lemma ClosesStep(ts: seq<Token>, h: nat)
    requires ts != [] && h > 0
    ensures h + Height(ts[..1]) >= 0
    ensures Closes(ts, h) <==>
            if h + Height(ts[..1]) == 0 then AllPlain(ts[1..]) else Closes(ts[1..], h + Height(ts[..1]))
  {
    assert ts[..1][1..] == [];
    if h + Height(ts[..1]) == 0 {
      assert h + Height(ts[..0]) == h;
      assert forall n | n > 1 :: !ClosesAt(ts, h, n);
      assert AllPlain(ts[1..]) ==> ClosesAt(ts, h, 1);
    } else {
      if Closes(ts, h) {
        var n: nat :| ClosesAt(ts, h, n);
        assert n != 1;
        ClosesLater(ts, h, n - 1);
      }
      if Closes(ts[1..], h + Height(ts[..1])) {
        var n: nat :| ClosesAt(ts[1..], h + Height(ts[..1]), n);
        ClosesLater(ts, h, n);
      }
    }
  }

  /** The tokens bring the machine to an end with the tree closed. */
  ghost predicate Completes(m: Machine, ts: Result<seq<Token>>) {
    ts.Ok? && ((m.Closed? && AllPlain(ts.value)) || (m.Open? && Closes(ts.value, |m.frames|)))
  }

  /** The loop accepts what closes all open nodes, and after that only what opens and closes nothing. */
  lemma {:induction false} ParseCounts(file: seq<byte>, i: nat, m: Machine)
    requires i <= |file| && (m.Open? ==> m.frames != [])
    ensures Parse(file, i, m).Closed? <==> Completes(m, Tokens(file[i..]))
    decreases |file| - i
  {
    if i < |file| && !m.Failed? {
      var b := file[i];
      var next := if b == START || b == ESCAPE then i + 2 else i + 1;
      if next <= |file| {
        assert file[i..][next - i..] == file[next..];
        var m' := if b == START && m.Open? then OpenChild(m.frames, i, file[i + 1])
          else if b == END && m.Open? then CloseNode(m.frames, i) else if b == START || b == END then Failed else m;
        assert Parse(file, i, m) == Parse(file, next, m');
        ParseCounts(file, next, m');
        TokenCounts(file[i..], next - i, m, m');
      }
    }
  }

  /** One turn of the loop against one token. */
  lemma TokenCounts(s: seq<byte>, n: nat, m: Machine, m': Machine)
    requires s != [] && n <= |s| && n == (if s[0] == START || s[0] == ESCAPE then 2 else 1) && !m.Failed?
    requires m.Open? ==> m.frames != []
    requires m.Open? ==>
               if s[0] == START then m'.Open? && |m'.frames| == |m.frames| + 1
               else if s[0] == END then
                 if |m.frames| == 1 then m'.Closed? else m'.Open? && |m'.frames| == |m.frames| - 1
               else m' == m
    requires m.Closed? ==> m' == if s[0] == START || s[0] == END then Failed else m
    ensures Completes(m, Tokens(s)) <==> Completes(m', Tokens(s[n..]))
  {
    var rest := Tokens(s[n..]);
    var t := HeadToken(s, n);
    if rest.Ok? {
      HeadCounts(t, rest.value, m, m');
    }
  }

  lemma HeadCounts(t: Token, rest: seq<Token>, m: Machine, m': Machine)
    requires m.Open? ==> m.frames != []
    requires match t
      case Opening => if m.Open? then m'.Open? && |m'.frames| == |m.frames| + 1 else m' == Failed
      case Closing =>
        if !m.Open? then m' == Failed
        else if |m.frames| == 1 then m'.Closed? else m'.Open? && |m'.frames| == |m.frames| - 1
      case Plain => m' == m
    ensures Completes(m, Ok([t] + rest)) <==> Completes(m', Ok(rest))
  {
    if m.Open? {
      OpenCounts(t, rest, [t] + rest, |m.frames|);
    } else if m.Closed? {
      PlainHead(t, rest, [t] + rest);
    }
  }

  lemma OpenCounts(t: Token, rest: seq<Token>, ts: seq<Token>, h: nat)
    requires ts == [t] + rest && h > 0
    ensures Closes(ts, h) <==>
            match t
            case Opening => Closes(rest, h + 1)
            case Closing => if h == 1 then AllPlain(rest) else Closes(rest, h - 1)
            case Plain => Closes(rest, h)
  {
    assert ts[1..] == rest;
    HeadHeight(ts);
    ClosesStep(ts, h);
  }

  lemma HeadToken(s: seq<byte>, n: nat) returns (t: Token)
    requires s != [] && n <= |s| && n == if s[0] == START || s[0] == ESCAPE then 2 else 1
    ensures Tokens(s) == OneMore(t, Tokens(s[n..]))
    ensures t == if s[0] == START then Opening else if s[0] == END then Closing else Plain
  {
    t := if s[0] == START then Opening else if s[0] == END then Closing else Plain;
  }

  lemma HeadHeight(ts: seq<Token>)
    requires ts != []
    ensures Height(ts[..1]) == match ts[0] case Opening => 1 case Closing => -1 case Plain => 0
  {
    assert ts[..1][1..] == [];
  }

  lemma PlainHead(t: Token, rest: seq<Token>, ts: seq<Token>)
    requires ts == [t] + rest
    ensures AllPlain(ts) <==> t.Plain? && AllPlain(rest)
  {
    if AllPlain(ts) {
      assert ts[0] == t;
      assert forall k | 0 <= k < |rest| :: rest[k] == ts[k + 1];
    }
  }

  /**
   A file is read as a tree exactly when behind its identifier it is cut into tokens of which the first opens a node,
   some token closes all that were opened, none before it does, and none after it opens or closes any.
   */
  lemma TreesAre(file: seq<byte>)
    requires |file| > MINIMAL_SIZE
    ensures TreeOf(file).Ok? <==>
            var ts := Tokens(file[4..]);
            ts.Ok? && ts.value != [] && ts.value[0].Opening? && Closes(ts.value[1..], 1)
  {
    assert file[4..][2..] == file[6..];
    ParseCounts(file, 6, Open([Node([], 6, 0, file[5])]));
    if file[4] == START && Tokens(file[6..]).Ok? {
      assert Tokens(file[4..]).value[1..] == Tokens(file[6..]).value;
    }
  }

  // ----- the loader: one tree that is filled in place, and a stack of pointers into it -----

  /** A pointer to a node, as the way to it from the root. */
  type Pointer = seq<nat>

  predicate Points(n: Node, p: Pointer) {
    p == [] || (p[0] < |n.children| && Points(n.children[p[0]], p[1..]))
  }

  function At(n: Node, p: Pointer): Node
    requires Points(n, p)
  {
    if p == [] then n else At(n.children[p[0]], p[1..])
  }

  /** The tree n with x where p points to. */
  function Put(n: Node, p: Pointer, x: Node): Node
    requires Points(n, p)
  {
    if p == [] then x else n.(children := n.children[p[0] := Put(n.children[p[0]], p[1..], x)])
  }

  /** The tree of which frames are the open nodes. */
  ghost function Fold(frames: seq<Node>): Node
    requires frames != []
  {
    if |frames| == 1 then frames[0]
    else frames[0].(children := frames[0].children + [Fold(frames[1..])])
  }

  /** The way from the root to the last open node: always to the last child. */
  ghost function WayTo(frames: seq<Node>): Pointer
    requires frames != []
  {
    seq(|frames| - 1, k requires 0 <= k < |frames| - 1 => |frames[k].children|)
  }

  /** The parse stack is the rightmost open path, so no held pointer leads through a node that gets a new child. */
  ghost predicate IsStack(stack: seq<Pointer>, frames: seq<Node>) {
    && frames != [] && |stack| == |frames|
    && forall k {:trigger stack[k]} | 0 <= k < |stack| :: stack[k] == WayTo(frames[..k + 1])
  }

  lemma {:induction false} FoldAt(frames: seq<Node>, x: Node)
    requires frames != []
    ensures Points(Fold(frames), WayTo(frames)) && At(Fold(frames), WayTo(frames)) == frames[|frames| - 1]
    ensures Put(Fold(frames), WayTo(frames), x) == Fold(frames[..|frames| - 1] + [x])
  {
    if |frames| > 1 {
      var f, rest := frames[0], frames[1..];
      FoldAt(rest, x);
      assert WayTo(frames) == [|f.children|] + WayTo(rest);
      assert WayTo(frames)[1..] == WayTo(rest);
      var changed := frames[..|frames| - 1] + [x];
      assert changed[1..] == rest[..|rest| - 1] + [x];
      assert (f.children + [Fold(rest)])[|f.children| := Fold(changed[1..])] == f.children + [Fold(changed[1..])];
    }
  }

  /** An open node and its open child, seen as one node. */
  lemma {:induction false} FoldLast(below: seq<Node>, f: Node, c: Node)
    ensures Fold(below + [f, c]) == Fold(below + [f.(children := f.children + [c])])
  {
    if below != [] {
      FoldLast(below[1..], f, c);
      assert (below + [f, c])[1..] == below[1..] + [f, c];
      assert (below + [f.(children := f.children + [c])])[1..] == below[1..] + [f.(children := f.children + [c])];
    }
  }

  lemma StackPushed(stack: seq<Pointer>, frames: seq<Node>, f: Node, c: Node, p: Pointer)
    requires IsStack(stack, frames) && |f.children| == |frames[|frames| - 1].children|
    requires p == stack[|stack| - 1] + [|f.children|]
    ensures IsStack(stack + [p], frames[..|frames| - 1] + [f, c])
  {
    var frames', stack' := frames[..|frames| - 1] + [f, c], stack + [p];
    forall k {:trigger stack'[k]} | 0 <= k < |stack'|
      ensures stack'[k] == WayTo(frames'[..k + 1])
    {
      if k < |stack| {
        assert stack'[k] == stack[k];
        SameWay(frames[..k + 1], frames'[..k + 1]);
      } else {
        assert frames'[..k + 1] == frames' && frames[..|stack|] == frames;
        assert stack[|stack| - 1] == WayTo(frames);
        assert WayTo(frames') == WayTo(frames) + [|f.children|];
      }
    }
  }

  /** Ways depend on the numbers of children of all nodes but the last. */
  lemma SameWay(a: seq<Node>, b: seq<Node>)
    requires |a| == |b| > 0 && forall k | 0 <= k < |a| - 1 :: |a[k].children| == |b[k].children|
    ensures WayTo(a) == WayTo(b)
  {
  }

  lemma StackPopped(stack: seq<Pointer>, frames: seq<Node>, x: Node)
    requires IsStack(stack, frames) && |frames| > 1
    ensures IsStack(stack[..|stack| - 1], frames[..|frames| - 2] + [x])
  {
    var frames', stack' := frames[..|frames| - 2] + [x], stack[..|stack| - 1];
    forall k {:trigger stack'[k]} | 0 <= k < |stack'|
      ensures stack'[k] == WayTo(frames'[..k + 1])
    {
      assert stack'[k] == stack[k];
      SameWay(frames[..k + 1], frames'[..k + 1]);
    }
  }

  /** The loader's tree and stack stand for the state of the machine. */
  ghost predicate StandsFor(root: Node, stack: seq<Pointer>, m: Machine) {
    match m
    case Open(frames) => IsStack(stack, frames) && root == Fold(frames)
    case Closed(r) => stack == [] && root == r
    case Failed => false
  }

  lemma TopIs(root: Node, stack: seq<Pointer>, frames: seq<Node>, x: Node)
    requires StandsFor(root, stack, Open(frames))
    ensures var p := stack[|stack| - 1];
            Points(root, p) && At(root, p) == frames[|frames| - 1]
                && Put(root, p, x) == Fold(frames[..|frames| - 1] + [x])
  {
    assert frames[..|frames|] == frames;
    FoldAt(frames, x);
  }

  /**
   Every held pointer is a beginning of the last one and leads through last children only. A new child is added
   where the last pointer points to, behind which none of the others leads, so they all stay good.
   */
  lemma HeldPointersStayGood(root: Node, stack: seq<Pointer>, frames: seq<Node>, k: nat, x: Node)
    requires StandsFor(root, stack, Open(frames)) && k < |stack|
    ensures var top := stack[|stack| - 1];
            && |stack[k]| == k && stack[k] == top[..k]
            && Points(root, top) && Points(Put(root, top, x), stack[k])
  {
    assert frames[..|frames|] == frames;
    TopIs(root, stack, frames, x);
    PointsPrefix(Put(root, stack[|stack| - 1], x), stack[|stack| - 1], k);
    PutPoints(root, stack[|stack| - 1], x);
  }

  lemma {:induction false} PutPoints(n: Node, p: Pointer, x: Node)
    requires Points(n, p)
    ensures Points(Put(n, p, x), p)
  {
    if p != [] {
      PutPoints(n.children[p[0]], p[1..], x);
    }
  }

  lemma {:induction false} PointsPrefix(n: Node, p: Pointer, k: nat)
    requires k <= |p|
    ensures Points(n, p) ==> Points(n, p[..k])
  {
    if k > 0 && p[0] < |n.children| {
      PointsPrefix(n.children[p[0]], p[1..], k - 1);
      assert p[..k][1..] == p[1..][..k - 1];
    }
  }

  class Loader {
    const fileContents: seq<byte>
    var root: Node
    var propBuffer: seq<byte>

    constructor (file: seq<byte>)
      ensures fileContents == file
    {
      fileContents, root, propBuffer := file, Node([], 0, 0, 0), [];
    }

    /** The checks of the constructor; false where it throws. */
    static method Load(file: seq<byte>, acceptedIdentifier: seq<byte>) returns (r: Result<Loader>)
      requires |acceptedIdentifier| == 4
      ensures r.Ok? <==> Accepts(file, acceptedIdentifier)
      ensures r.Ok? ==> fresh(r.value) && r.value.fileContents == file
    {
      if |file| <= MINIMAL_SIZE {
        return InvalidOtbFormat;
      }
      var fileIdentifier := file[..4];
      if fileIdentifier != acceptedIdentifier && fileIdentifier != WILDCARD {
        return InvalidOtbFormat;
      }
      var loader := new Loader(file);
      r := Ok(loader);
    }

    method ParseTree() returns (r: Result<Node>)
      requires |fileContents| > MINIMAL_SIZE
      modifies this`root
      ensures r == TreeOf(fileContents)
    {
      var it := 4;
      if fileContents[it] != START {
        return InvalidOtbFormat;
      }
      root := Node([], 6, 0, fileContents[5]);
      it := 6;
      var parseStack: seq<Pointer> := [[]];
      ghost var m := Open([root]);
      ghost var all := Parse(fileContents, 6, m);
      assert WayTo([root][..1]) == [];
      while it < |fileContents|
        invariant 6 <= it && (m.Open? ==> m.frames != []) && StandsFor(root, parseStack, m)
        invariant all == Parse(fileContents, it, m)
      {
        if fileContents[it] == START {
          if parseStack == [] || it + 1 == |fileContents| {
            return InvalidOtbFormat;
          }
          parseStack := PushNode(parseStack, it, fileContents[it + 1], m.frames);
          m := OpenChild(m.frames, it, fileContents[it + 1]);
          it := it + 1;
        } else if fileContents[it] == END {
          if parseStack == [] {
            return InvalidOtbFormat;
          }
          parseStack := PopNode(parseStack, it, m.frames);
          m := CloseNode(m.frames, it);
        } else if fileContents[it] == ESCAPE {
          it := it + 1;
          if it == |fileContents| {
            return InvalidOtbFormat;
          }
        }
        it := it + 1;
      }
      if parseStack != [] {
        return InvalidOtbFormat;
      }
      r := Ok(root);
    }

    /** The case of START: the current node gets a new child, which becomes the current node. */
    method PushNode(parseStack: seq<Pointer>, it: nat, kind: byte, ghost frames: seq<Node>)
      returns (stack: seq<Pointer>)
      requires StandsFor(root, parseStack, Open(frames))
      modifies this`root
      ensures StandsFor(root, stack, OpenChild(frames, it, kind))
    {
      var top := parseStack[|parseStack| - 1];
      ghost var below, f := frames[..|frames| - 1], Bounded(frames[|frames| - 1], it);
      TopIs(root, parseStack, frames, f.(children := f.children + [Node([], it + 2, 0, kind)]));
      var currentNode := At(root, top);
      if currentNode.children == [] {
        currentNode := currentNode.(propsEnd := it);
      }
      var child := Node([], it + 2, 0, kind);
      var index := |currentNode.children|;
      currentNode := currentNode.(children := currentNode.children + [child]);
      root := Put(root, top, currentNode);
      stack := parseStack + [top + [index]];
      FoldLast(below, f, child);
      StackPushed(parseStack, frames, f, child, top + [index]);
    }

    /** The case of END: the current node is complete. */
    method PopNode(parseStack: seq<Pointer>, it: nat, ghost frames: seq<Node>) returns (stack: seq<Pointer>)
      requires StandsFor(root, parseStack, Open(frames))
      modifies this`root
      ensures StandsFor(root, stack, CloseNode(frames, it))
    {
      var top := parseStack[|parseStack| - 1];
      ghost var f := Bounded(frames[|frames| - 1], it);
      TopIs(root, parseStack, frames, f);
      var currentNode := At(root, top);
      if currentNode.children == [] {
        root := Put(root, top, currentNode.(propsEnd := it));
      } else {
        assert frames[..|frames| - 1] + [f] == frames;
      }
      stack := parseStack[..|parseStack| - 1];
      StackCloses(frames, it, root, parseStack);
    }

    /** The properties of a loaded node without their escapes; none for an empty range. */
    method GetProps(node: Node) returns (ok: bool, props: seq<byte>)
      requires node.propsBegin <= node.propsEnd <= |fileContents|
      modifies this`propBuffer
      ensures ok <==> node.propsBegin != node.propsEnd
      ensures ok ==> props == Unescape(fileContents[node.propsBegin..node.propsEnd], false) == propBuffer
      ensures !ok ==> props == [] && propBuffer == old(propBuffer)
    {
      props := [];
      if node.propsEnd - node.propsBegin == 0 {
        return false, props;
      }
      var lastEscaped := false;
      ghost var range := fileContents[node.propsBegin..node.propsEnd];
      for i := node.propsBegin to node.propsEnd
        invariant props + Unescape(fileContents[i..node.propsEnd], lastEscaped) == Unescape(range, false)
      {
        var byte := fileContents[i];
        assert fileContents[i..node.propsEnd][1..] == fileContents[i + 1..node.propsEnd];
        UnescapeStep(props, fileContents[i..node.propsEnd], lastEscaped);
        lastEscaped := byte == ESCAPE && !lastEscaped;
        if !lastEscaped {
          props := props + [byte];
        }
      }
      propBuffer := props;
      ok := true;
    }
  }

  lemma StackCloses(frames: seq<Node>, it: nat, root: Node, stack: seq<Pointer>)
    requires IsStack(stack, frames)
    requires root == Fold(frames[..|frames| - 1] + [Bounded(frames[|frames| - 1], it)])
    ensures StandsFor(root, stack[..|stack| - 1], CloseNode(frames, it))
  {
    var f := Bounded(frames[|frames| - 1], it);
    if |frames| > 1 {
      var below, parent := frames[..|frames| - 2], frames[|frames| - 2];
      assert frames[..|frames| - 1] + [f] == below + [parent, f];
      FoldLast(below, parent, f);
      StackPopped(stack, frames, parent.(children := parent.children + [f]));
    }
  }
}
