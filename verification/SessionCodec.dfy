/** One codec that meets every assumption the session results make, so that they speak of something:
    values are written as binary trees, trees in prefix order, and a line is a tree in a frame. */
module SessionCodec {
  import opened Basics
  import opened Conversation
  import opened SessionRecords
  import opened SessionLog

  // ---------- Trees and their bytes ----------

  datatype Tree = Leaf | Node(left: Tree, right: Tree)

  const OPEN: byte := 123
  const CLOSE: byte := 125

  function Flat(t: Tree): (bytes: Bytes)
    ensures bytes != [] && forall i :: 0 <= i < |bytes| ==> bytes[i] == 1 || bytes[i] == 2
  {
    match t
    case Leaf => [1]
    case Node(left, right) => [2] + Flat(left) + Flat(right)
  }

  lemma FlatFirst(t: Tree, x: Bytes)
    ensures (Flat(t) + x)[0] == (if t.Leaf? then 1 else 2)
    ensures (Flat(t) + x)[1..] == if t.Leaf? then x else Flat(t.left) + (Flat(t.right) + x)
  {
  }

  /** The bytes of a tree can be split off any continuation in one way only. */
  lemma {:induction false} FlatSplits(a: Tree, x: Bytes, b: Tree, y: Bytes)
    requires Flat(a) + x == Flat(b) + y
    ensures a == b && x == y
    decreases a
  {
    hide Flat;
    FlatFirst(a, x);
    FlatFirst(b, y);
    if a.Node? {
      FlatSplits(a.left, Flat(a.right) + x, b.left, Flat(b.right) + y);
      FlatSplits(a.right, x, b.right, y);
    }
  }

  lemma FlatIsInjective(a: Tree, b: Tree)
    requires Flat(a) == Flat(b)
    ensures a == b
  {
    assert Flat(a) + [] == Flat(a) && Flat(b) + [] == Flat(b);
    FlatSplits(a, [], b, []);
  }

  // ---------- Values as trees ----------

  function NatTree(n: nat): Tree { if n == 0 then Leaf else Node(Leaf, NatTree(n - 1)) }

  lemma {:induction false} NatTreeIsInjective(a: nat, b: nat)
    ensures NatTree(a) == NatTree(b) ==> a == b
  {
    if a > 0 && b > 0 {
      NatTreeIsInjective(a - 1, b - 1);
    }
  }

  function IntTree(i: int): Tree {
    if i < 0 then Node(Node(Leaf, Leaf), NatTree(-i)) else Node(Leaf, NatTree(i))
  }

  lemma IntTreeIsInjective(a: int, b: int)
    ensures IntTree(a) == IntTree(b) ==> a == b
  {
    if (a < 0) == (b < 0) {
      NatTreeIsInjective(if a < 0 then -a else a, if b < 0 then -b else b);
    }
  }

  ghost predicate Injective<T(!new)>(f: T -> Tree) {
    forall x: T, y: T :: f(x) == f(y) ==> x == y
  }

  function SeqTree<T>(f: T -> Tree, s: seq<T>): Tree {
    if s == [] then Leaf else Node(f(s[0]), SeqTree(f, s[1..]))
  }

  lemma {:induction false} SeqTreeIsInjective<T(!new)>(f: T -> Tree, a: seq<T>, b: seq<T>)
    requires Injective(f)
    ensures SeqTree(f, a) == SeqTree(f, b) ==> a == b
    decreases |a|
  {
    if a != [] && b != [] && SeqTree(f, a) == SeqTree(f, b) {
      SeqTreeIsInjective(f, a[1..], b[1..]);
      assert a == [a[0]] + a[1..] && b == [b[0]] + b[1..];
    }
  }

  function CharTree(c: char): Tree { NatTree(c as nat) }

  function ByteTree(b: byte): Tree { NatTree(b as nat) }

  function StringTree(s: string): Tree { SeqTree(CharTree, s) }

  function BytesTree(s: Bytes): Tree { SeqTree(ByteTree, s) }

  lemma StringTreeIsInjective()
    ensures Injective(StringTree)
  {
    forall x: char, y: char ensures CharTree(x) == CharTree(y) ==> x == y {
      NatTreeIsInjective(x as nat, y as nat);
    }
    forall x: string, y: string ensures StringTree(x) == StringTree(y) ==> x == y {
      SeqTreeIsInjective(CharTree, x, y);
    }
  }

  lemma BytesTreeIsInjective()
    ensures Injective(BytesTree)
  {
    forall x: byte, y: byte ensures ByteTree(x) == ByteTree(y) ==> x == y {
      NatTreeIsInjective(x as nat, y as nat);
    }
    forall x: Bytes, y: Bytes ensures BytesTree(x) == BytesTree(y) ==> x == y {
      SeqTreeIsInjective(ByteTree, x, y);
    }
  }

  function OptionTree<T>(f: T -> Tree, o: Option<T>): Tree {
    match o
    case None => Leaf
    case Some(value) => Node(Leaf, f(value))
  }

  function BoolTree(b: bool): Tree { if b then Leaf else Node(Leaf, Leaf) }

  /** A constructor number in front of its arguments. */
  function Tagged(tag: nat, args: Tree): Tree { Node(NatTree(tag), args) }

  // ---------- Records as trees ----------

  function ItemTree(item: Item): Tree {
    match item
    case UserText(text) => Tagged(0, StringTree(text))
    case Message(parts) => Tagged(1, SeqTree(StringTree, parts))
    case FunctionCall(callId, name) => Tagged(2, Node(StringTree(callId), StringTree(name)))
    case FunctionOutput(callId, output) => Tagged(3, Node(StringTree(callId), StringTree(output)))
  }

  lemma ItemTreeIsInjective()
    ensures Injective(ItemTree)
  {
    StringTreeIsInjective();
    forall x: Item, y: Item ensures ItemTree(x) == ItemTree(y) ==> x == y {
      if ItemTree(x) == ItemTree(y) {
        NatTreeIsInjective(ItemTag(x), ItemTag(y));
        if x.Message? {
          SeqTreeIsInjective(StringTree, x.parts, y.parts);
        }
      }
    }
  }

  function ItemTag(item: Item): nat {
    match item
    case UserText(_) => 0
    case Message(_) => 1
    case FunctionCall(_, _) => 2
    case FunctionOutput(_, _) => 3
  }

  function KindTag(kind: SegmentKind): nat {
    match kind
    case User => 0
    case Model => 1
    case Summary => 2
  }

  function SegmentTree(s: Segment): Tree { Tagged(KindTag(s.kind), SeqTree(ItemTree, s.items)) }

  lemma SegmentTreeIsInjective()
    ensures Injective(SegmentTree)
  {
    ItemTreeIsInjective();
    forall x: Segment, y: Segment ensures SegmentTree(x) == SegmentTree(y) ==> x == y {
      NatTreeIsInjective(KindTag(x.kind), KindTag(y.kind));
      SeqTreeIsInjective(ItemTree, x.items, y.items);
    }
  }

  function CheckpointTree(c: Checkpoint): Tree {
    Node(Node(StringTree(c.summary), StringTree(c.trigger)),
         Node(Node(IntTree(c.beforeTokens), IntTree(c.afterTokens)), NatTree(c.dropped)))
  }

  lemma CheckpointTreeIsInjective()
    ensures Injective(CheckpointTree)
  {
    StringTreeIsInjective();
    forall x: Checkpoint, y: Checkpoint ensures CheckpointTree(x) == CheckpointTree(y) ==> x == y {
      IntTreeIsInjective(x.beforeTokens, y.beforeTokens);
      IntTreeIsInjective(x.afterTokens, y.afterTokens);
      NatTreeIsInjective(x.dropped, y.dropped);
    }
  }

  function TodoTree(t: Todo): Tree { Node(StringTree(t.content), StringTree(t.status)) }

  lemma TodoTreeIsInjective()
    ensures Injective(TodoTree)
  {
    StringTreeIsInjective();
  }

  function WorkflowTree(w: Workflow): Tree {
    Node(Node(StringTree(w.mode), BoolTree(w.changesAccepted)),
         Node(OptionTree(StringTree, w.approvedPlan), OptionTree(StringTree, w.checkpointId)))
  }

  lemma WorkflowTreeIsInjective()
    ensures Injective(WorkflowTree)
  {
    StringTreeIsInjective();
  }

  function AccountingTree(a: Accounting): Tree {
    Node(Node(IntTree(a.calibration.mantissa), IntTree(a.calibration.exponent)),
         Node(Node(OptionTree(IntTree, a.lastActual), OptionTree(IntTree, a.lastEstimated)),
              Node(NatTree(a.failures), BoolTree(a.proactiveDisabled))))
  }

  lemma AccountingTreeIsInjective(x: Accounting, y: Accounting)
    ensures AccountingTree(x) == AccountingTree(y) ==> x == y
  {
    IntTreeIsInjective(x.calibration.mantissa, y.calibration.mantissa);
    IntTreeIsInjective(x.calibration.exponent, y.calibration.exponent);
    NatTreeIsInjective(x.failures, y.failures);
    if x.lastActual.Some? && y.lastActual.Some? {
      IntTreeIsInjective(x.lastActual.value, y.lastActual.value);
    }
    if x.lastEstimated.Some? && y.lastEstimated.Some? {
      IntTreeIsInjective(x.lastEstimated.value, y.lastEstimated.value);
    }
  }

  function ViewTree(v: View): Tree {
    Node(Node(SeqTree(SegmentTree, v.active), SeqTree(CheckpointTree, v.checkpoints)),
         Node(SeqTree(TodoTree, v.todos), Node(AccountingTree(v.accounting), WorkflowTree(v.workflow))))
  }

  lemma ViewTreeIsInjective(x: View, y: View)
    ensures ViewTree(x) == ViewTree(y) ==> x == y
  {
    SegmentTreeIsInjective();
    CheckpointTreeIsInjective();
    TodoTreeIsInjective();
    WorkflowTreeIsInjective();
    SeqTreeIsInjective(SegmentTree, x.active, y.active);
    SeqTreeIsInjective(CheckpointTree, x.checkpoints, y.checkpoints);
    SeqTreeIsInjective(TodoTree, x.todos, y.todos);
    AccountingTreeIsInjective(x.accounting, y.accounting);
  }

  function CommitTag(kind: CommitKind): nat {
    match kind
    case StateCommitted => 0
    case ContextCommitted => 1
    case WorkflowCommitted => 2
    case TurnFailed => 3
    case TurnInterrupted => 4
    case TurnSteered => 5
    case OtherKind(_) => 6
  }

  function CommitKindTree(kind: CommitKind): Tree {
    Tagged(CommitTag(kind), if kind.OtherKind? then StringTree(kind.name) else Leaf)
  }

  lemma CommitKindTreeIsInjective(x: CommitKind, y: CommitKind)
    ensures CommitKindTree(x) == CommitKindTree(y) ==> x == y
  {
    StringTreeIsInjective();
    NatTreeIsInjective(CommitTag(x), CommitTag(y));
  }

  function PayloadTag(p: Payload): nat {
    match p
    case Created(_, _) => 0
    case Committed(_, _, _) => 1
    case Aborted(_, _) => 2
    case Closed => 3
  }

  function PayloadTree(p: Payload): Tree {
    Tagged(PayloadTag(p),
           match p
           case Created(todos, workflow) => Node(SeqTree(TodoTree, todos), WorkflowTree(workflow))
           case Committed(kind, delta, view) =>
             Node(CommitKindTree(kind), Node(SeqTree(SegmentTree, delta), ViewTree(view)))
           case Aborted(userText, reason) => Node(StringTree(userText), StringTree(reason))
           case Closed => Leaf)
  }

  lemma PayloadTreeIsInjective(x: Payload, y: Payload)
    ensures PayloadTree(x) == PayloadTree(y) ==> x == y
  {
    if PayloadTree(x) == PayloadTree(y) {
      NatTreeIsInjective(PayloadTag(x), PayloadTag(y));
      match x {
        case Created(todos, workflow) =>
          TodoTreeIsInjective();
          WorkflowTreeIsInjective();
          SeqTreeIsInjective(TodoTree, todos, y.todos);
        case Committed(kind, delta, view) =>
          SegmentTreeIsInjective();
          CommitKindTreeIsInjective(kind, y.kind);
          SeqTreeIsInjective(SegmentTree, delta, y.delta);
          ViewTreeIsInjective(view, y.view);
        case Aborted(userText, reason) =>
          StringTreeIsInjective();
        case Closed =>
      }
    }
  }

  function BodyTree(b: Body): Tree {
    Node(Node(IntTree(b.sequence), BytesTree(b.previous)), Node(IntTree(b.timestamp), PayloadTree(b.payload)))
  }

  lemma BodyTreeIsInjective(x: Body, y: Body)
    ensures BodyTree(x) == BodyTree(y) ==> x == y
  {
    BytesTreeIsInjective();
    IntTreeIsInjective(x.sequence, y.sequence);
    IntTreeIsInjective(x.timestamp, y.timestamp);
    PayloadTreeIsInjective(x.payload, y.payload);
  }

  // ---------- The codec ----------

  function Canonical(r: Record): Bytes {
    [OPEN] + Flat(Node(BodyTree(r.body), BytesTree(r.hash))) + [CLOSE]
  }

  predicate Reads(line: Bytes, r: Record) { line == Canonical(r) || line == Canonical(r) + [LF] }

  ghost function ParseLine(line: Bytes): Parsed {
    if exists r: Record :: Reads(line, r) then
      var r: Record :| Reads(line, r);
      Object(r)
    else Malformed
  }

  function Digest(previous: Bytes, body: Body): Bytes { Flat(BodyTree(body)) }

  ghost function TreeCodec(): Codec { Codec(Canonical, ParseLine, Digest) }

  /** The frame bytes stand at the ends of a line and nowhere else. */
  lemma CanonicalShape(r: Record)
    ensures var line := Canonical(r);
            && |line| > 2 && line[0] == OPEN && line[|line| - 1] == CLOSE
            && forall i :: 0 < i < |line| - 1 ==> line[i] == 1 || line[i] == 2
  {
    var inner := Flat(Node(BodyTree(r.body), BytesTree(r.hash)));
    var line := Canonical(r);
    assert forall i :: 0 <= i < |inner| ==> line[i + 1] == inner[i];
    assert forall i :: 0 < i < |line| - 1 ==> line[i] == inner[i - 1];
  }

  lemma CanonicalIsInjective(r: Record, s: Record)
    requires Canonical(r) == Canonical(s)
    ensures r == s
  {
    var a, b := Node(BodyTree(r.body), BytesTree(r.hash)), Node(BodyTree(s.body), BytesTree(s.hash));
    assert Canonical(r)[1..] == Flat(a) + [CLOSE] && Canonical(s)[1..] == Flat(b) + [CLOSE];
    FlatSplits(a, [CLOSE], b, [CLOSE]);
    BodyTreeIsInjective(r.body, s.body);
    BytesTreeIsInjective();
  }

  lemma ReadsIsUnique(line: Bytes, r: Record, s: Record)
    requires Reads(line, r) && Reads(line, s)
    ensures r == s
  {
    CanonicalShape(r);
    CanonicalShape(s);
    assert line[|line| - 1] == (if line == Canonical(r) then CLOSE else LF);
    assert line[|line| - 1] == (if line == Canonical(s) then CLOSE else LF);
    if line != Canonical(r) {
      assert (Canonical(r) + [LF])[..|line| - 1] == Canonical(r);
      assert (Canonical(s) + [LF])[..|line| - 1] == Canonical(s);
    }
    CanonicalIsInjective(r, s);
  }

  lemma ReadsBack(line: Bytes, r: Record)
    requires Reads(line, r)
    ensures ParseLine(line) == Object(r)
  {
    var s: Record :| Reads(line, s) && ParseLine(line) == Object(s);
    ReadsIsUnique(line, r, s);
  }

  /** How a line ends, and where it opens. */
  lemma ReadsShape(line: Bytes, r: Record)
    ensures Reads(line, r) ==>
              && line != [] && line[|line| - 1] in {CLOSE, LF}
              && forall i :: 0 < i < |line| ==> line[i] != OPEN
  {
    CanonicalShape(r);
  }

  /** A piece of a line is no line. */
  lemma PieceIsMalformed(r: Record, k: nat)
    requires k < |Canonical(r)|
    ensures ParseLine(Canonical(r)[..k]) == Malformed
    ensures !Complete(Canonical(r)[..k])
  {
    CanonicalShape(r);
    forall s: Record ensures !Reads(Canonical(r)[..k], s) {
      ReadsShape(Canonical(r)[..k], s);
    }
  }

  lemma SplicedIsMalformed(r: Record, s: Record, k: nat)
    requires 0 < k <= |Canonical(r)|
    ensures ParseLine(Canonical(r)[..k] + Canonical(s) + [LF]) == Malformed
  {
    var line := Canonical(r)[..k] + Canonical(s) + [LF];
    CanonicalShape(s);
    assert line[k] == OPEN;
    forall t: Record ensures !Reads(line, t) {
      ReadsShape(line, t);
    }
  }

  lemma CodecIsStable(line: Bytes)
    ensures TreeCodec().StableFor(line)
  {
    if ParseLine(line).Object? {
      var r: Record :| Reads(line, r);
      forall k: nat | k <= |line|
        ensures ParseLine(line[..k]) == ParseLine(line)
                || (ParseLine(line[..k]) == Malformed && !Complete(line[..k]))
      {
        if k < |Canonical(r)| {
          assert line[..k] == Canonical(r)[..k];
          PieceIsMalformed(r, k);
        } else {
          assert line[..k] == Canonical(r) || line[..k] == line;
          ReadsBack(line[..k], r);
          ReadsBack(line, r);
        }
      }
    }
  }

  /** All assumptions on the encoder, the reader and the hash hold of this codec together. */
  lemma TreeCodecMeetsAllAssumptions()
    ensures TreeCodec().Faithful() && TreeCodec().NoSplicing()
    ensures TreeCodec().PrefixStable() && TreeCodec().CollisionFree()
  {
    var c := TreeCodec();
    forall r: Record ensures c.FaithfulFor(r) {
      CanonicalShape(r);
      ReadsBack(Canonical(r), r);
      ReadsBack(Canonical(r) + [LF], r);
      forall k: nat | k < |Canonical(r)| ensures ParseLine(Canonical(r)[..k]) == Malformed {
        PieceIsMalformed(r, k);
      }
    }
    forall r: Record, s: Record ensures c.NoSplicingFor(r, s) {
      forall k: nat | 0 < k <= |Canonical(r)|
        ensures ParseLine(Canonical(r)[..k] + Canonical(s) + [LF]) == Malformed
      {
        SplicedIsMalformed(r, s, k);
      }
    }
    forall line: Bytes ensures c.StableFor(line) {
      CodecIsStable(line);
    }
    forall p: Bytes, b: Body, q: Bytes, d: Body ensures c.Distinguishes(p, b, q, d) {
      if Digest(p, b) == Digest(q, d) {
        FlatIsInjective(BodyTree(b), BodyTree(d));
        BodyTreeIsInjective(b, d);
      }
    }
  }
}
