/** The arena of type contents, encoded in 32-bit words, and the dense list of types. */
module Types {

  type Word = x: int | 0 <= x < 0x1_0000_0000
  type Half = x: int | 0 <= x < 0x1_0000
  type Byte = x: int | 0 <= x < 0x100

  // ---------- encoding ----------

  datatype TypeMember = TypeMember(typeID: Word, memberID: Half, decoration: Byte, pad: Byte, initVal: Word)

  /** Three words; the middle one holds three fields, lowest first. */
  function MemberWords(m: TypeMember): (w: seq<Word>)
    ensures |w| == 3
  {
    [m.typeID, m.memberID + m.decoration * 0x1_0000 + m.pad * 0x100_0000, m.initVal]
  }

  function MemberFrom(a: Word, b: Word, c: Word): TypeMember {
    TypeMember(a, b % 0x1_0000, (b / 0x1_0000) % 0x100, b / 0x100_0000, c)
  }

  function AllWords(ms: seq<TypeMember>): (w: seq<Word>)
    ensures |w| == 3 * |ms|
  {
    if ms == [] then [] else AllWords(ms[..|ms| - 1]) + MemberWords(ms[|ms| - 1])
  }

  /** A type's content: what `push` is given. */
  datatype Record = Record(id: Word, flags: seq<Word>, members: seq<TypeMember>) {
    function Size(): nat { 3 + |flags| + 3 * |members| }
  }

  /** Header of identifier, total size and start of the members; then flags; then members. */
  function Encoded(r: Record): (w: seq<Word>)
    requires r.Size() < 0x1_0000_0000
    ensures |w| == r.Size()
  {
    [r.id, r.Size(), 3 + |r.flags|] + r.flags + AllWords(r.members)
  }

  // ---------- reading ----------

  /** A header can be read at `o`. */
  predicate Readable(raw: seq<Word>, o: nat) { o + 3 <= |raw| }

  function FlagCount(raw: seq<Word>, o: nat): nat
    requires Readable(raw, o)
  {
    if raw[o + 2] > 3 then raw[o + 2] - 3 else 0
  }

  function MemberCount(raw: seq<Word>, o: nat): nat
    requires Readable(raw, o)
  {
    if raw[o + 1] > raw[o + 2] then (raw[o + 1] - raw[o + 2]) / 3 else 0
  }

  function FlagsAt(raw: seq<Word>, o: nat): seq<Word>
    requires Readable(raw, o) && o + 3 + FlagCount(raw, o) <= |raw|
  {
    raw[o + 3..o + 3 + FlagCount(raw, o)]
  }

  function MemberAt(raw: seq<Word>, o: nat, k: nat): TypeMember
    requires Readable(raw, o) && o + raw[o + 2] + 3 * k + 3 <= |raw|
  {
    var p := o + raw[o + 2] + 3 * k;
    MemberFrom(raw[p], raw[p + 1], raw[p + 2])
  }

  /** The words at `o` are those of `r`. */
  predicate Stored(raw: seq<Word>, o: nat, r: Record) {
    r.Size() < 0x1_0000_0000 && o + r.Size() <= |raw| && raw[o..o + r.Size()] == Encoded(r)
  }

  lemma MemberDecodes(m: TypeMember)
    ensures var w := MemberWords(m); MemberFrom(w[0], w[1], w[2]) == m
  {
    var high: int := m.decoration + 0x100 * m.pad;
    var b := m.memberID + 0x1_0000 * high;
    assert b / 0x1_0000 == high && b % 0x1_0000 == m.memberID;
    assert high % 0x100 == m.decoration && high / 0x100 == m.pad;
    assert b / 0x100_0000 == high / 0x100;
  }

  lemma {:induction false} MemberInWords(ms: seq<TypeMember>, k: nat)
    requires k < |ms|
    ensures AllWords(ms)[3 * k..3 * k + 3] == MemberWords(ms[k])
    decreases |ms|
  {
    var init := ms[..|ms| - 1];
    if k < |ms| - 1 {
      MemberInWords(init, k);
      assert AllWords(ms)[3 * k..3 * k + 3] == AllWords(init)[3 * k..3 * k + 3];
    }
  }

  lemma EncodedParts(r: Record)
    requires r.Size() < 0x1_0000_0000
    ensures var w := Encoded(r); var f := 3 + |r.flags|;
      w[0] == r.id && w[1] == r.Size() && w[2] == f && w[3..f] == r.flags && w[f..] == AllWords(r.members)
  {}

  lemma StoredAt(raw: seq<Word>, o: nat, r: Record, a: nat, b: nat)
    requires Stored(raw, o, r) && a <= b <= r.Size()
    ensures raw[o + a..o + b] == Encoded(r)[a..b]
  {
    var x, y := raw[o + a..o + b], Encoded(r)[a..b];
    forall j | 0 <= j < |x| ensures x[j] == y[j] { assert raw[o..o + r.Size()][a + j] == Encoded(r)[a + j]; }
    assert x == y;
  }

  /** The accessors read `r` at `o`: identifier, flags and members. */
  predicate ReadsAs(raw: seq<Word>, o: nat, r: Record) {
    && Readable(raw, o) && raw[o] == r.id
    && FlagCount(raw, o) == |r.flags| && o + 3 + |r.flags| <= |raw| && FlagsAt(raw, o) == r.flags
    && MemberCount(raw, o) == |r.members|
    && forall k :: 0 <= k < |r.members| ==>
      o + raw[o + 2] + 3 * k + 3 <= |raw| && MemberAt(raw, o, k) == r.members[k]
  }

  /** What was stored is what every accessor reads. */
  lemma ReadsBack(raw: seq<Word>, o: nat, r: Record)
    requires Stored(raw, o, r)
    ensures ReadsAs(raw, o, r)
  {
    hide AllWords, Encoded;
    EncodedParts(r);
    var w, f := Encoded(r), 3 + |r.flags|;
    forall j | 0 <= j < |w| ensures raw[o + j] == w[j] { assert raw[o..o + r.Size()][j] == w[j]; }
    StoredAt(raw, o, r, 3, f);
    assert raw[o] == w[0] && raw[o + 1] == w[1] && raw[o + 2] == w[2];
    forall k | 0 <= k < |r.members|
      ensures o + raw[o + 2] + 3 * k + 3 <= |raw| && MemberAt(raw, o, k) == r.members[k]
    {
      MemberReadsBack(raw, o, r, k);
    }
  }

  /** Which word holds what: header, flags, and three words for each member. */
  lemma WordByWord(raw: seq<Word>, o: nat, r: Record)
    requires Stored(raw, o, r)
    ensures raw[o] == r.id && raw[o + 1] == 3 + |r.flags| + 3 * |r.members| && raw[o + 2] == 3 + |r.flags|
    ensures raw[o + 3..o + 3 + |r.flags|] == r.flags
    ensures forall k :: 0 <= k < |r.members| ==>
      var p := o + 3 + |r.flags| + 3 * k; var m := r.members[k];
      raw[p] == m.typeID && raw[p + 1] == m.memberID + 0x1_0000 * m.decoration + 0x100_0000 * m.pad && raw[p + 2] == m.initVal
  {
    hide AllWords, Encoded;
    EncodedParts(r);
    var w, f := Encoded(r), 3 + |r.flags|;
    forall j | 0 <= j < |w| ensures raw[o + j] == w[j] { assert raw[o..o + r.Size()][j] == w[j]; }
    StoredAt(raw, o, r, 3, f);
    assert raw[o + 0] == w[0] && raw[o + 1] == w[1] && raw[o + 2] == w[2];
    forall k | 0 <= k < |r.members|
      ensures var p := o + f + 3 * k; var m := MemberWords(r.members[k]); raw[p] == m[0] && raw[p + 1] == m[1] && raw[p + 2] == m[2]
    {
      MemberPlaced(raw, o, r, k);
    }
  }

  lemma MemberPlaced(raw: seq<Word>, o: nat, r: Record, k: nat)
    requires Stored(raw, o, r) && k < |r.members|
    ensures var p := o + 3 + |r.flags| + 3 * k; var m := MemberWords(r.members[k]);
      p + 3 <= |raw| && raw[p] == m[0] && raw[p + 1] == m[1] && raw[p + 2] == m[2]
  {
    hide AllWords, Encoded, MemberWords;
    EncodedParts(r);
    var w, f := Encoded(r), 3 + |r.flags|;
    MemberInWords(r.members, k);
    var m := MemberWords(r.members[k]);
    forall j | 0 <= j < 3 ensures raw[o + f + 3 * k + j] == m[j] {
      assert raw[o..o + r.Size()][f + 3 * k + j] == w[f + 3 * k + j];
      assert w[f..][3 * k + j] == AllWords(r.members)[3 * k..3 * k + 3][j];
    }
    assert raw[o + f + 3 * k + 0] == m[0] && raw[o + f + 3 * k + 1] == m[1] && raw[o + f + 3 * k + 2] == m[2];
  }

  lemma MemberReadsBack(raw: seq<Word>, o: nat, r: Record, k: nat)
    requires Stored(raw, o, r) && k < |r.members| && raw[o + 2] == 3 + |r.flags|
    ensures o + raw[o + 2] + 3 * k + 3 <= |raw| && MemberAt(raw, o, k) == r.members[k]
  {
    hide AllWords, Encoded, MemberWords;
    MemberPlaced(raw, o, r, k);
    MemberDecodes(r.members[k]);
  }

  lemma StoredLonger(raw: seq<Word>, more: seq<Word>, o: nat, r: Record)
    requires Stored(raw, o, r)
    ensures Stored(raw + more, o, r)
  {
    assert (raw + more)[o..o + r.Size()] == raw[o..o + r.Size()];
  }

  // ---------- the layout of the arena ----------

  /** What the arena holds one after the other: whole records, and what a roll back left of others. */
  datatype Piece = Whole(record: Record) | Torn(words: seq<Word>)

  predicate Fits(p: Piece) {
    match p case Whole(r) => r.Size() < 0x1_0000_0000 case Torn(w) => w != []
  }

  type Log = ps: seq<Piece> | forall k :: 0 <= k < |ps| ==> Fits(ps[k]) witness []

  function PieceWords(p: Piece): (w: seq<Word>)
    requires Fits(p)
    ensures w != []
  {
    match p case Whole(r) => Encoded(r) case Torn(w) => w
  }

  /** The words of the arena; the first one is reserved, so that offset 0 means no record. */
  function Words(log: Log): (w: seq<Word>)
    ensures |w| > 0 && w[0] == 0
  {
    if log == [] then [0] else Words(log[..|log| - 1]) + PieceWords(log[|log| - 1])
  }

  /** Where the `k`-th piece starts. */
  function Start(log: Log, k: nat): nat
    requires k <= |log|
  {
    |Words(log[..k])|
  }

  /** The records that can be read, by offset. */
  function Live(log: Log): map<nat, Record> {
    if log == [] then map[]
    else
      var init, last := log[..|log| - 1], log[|log| - 1];
      if last.Whole? then Live(init)[|Words(init)| := last.record] else Live(init)
  }

  /** The pieces below an offset, the last one torn where the offset falls inside it. */
  function Cut(log: Log, o: nat): Log {
    if log == [] then []
    else
      var init, last := log[..|log| - 1], log[|log| - 1];
      if o <= |Words(init)| then Cut(init, o)
      else if o < |Words(log)| then init + [Torn(PieceWords(last)[..o - |Words(init)|])]
      else log
  }

  lemma WordsSnoc(log: Log, p: Piece)
    requires Fits(p)
    ensures Words(log + [p]) == Words(log) + PieceWords(p)
    ensures Live(log + [p]) == if p.Whole? then Live(log)[|Words(log)| := p.record] else Live(log)
  {
    assert (log + [p])[..|log|] == log;
  }

  lemma {:induction false} WordsPrefix(log: Log, k: nat)
    requires k <= |log|
    ensures Words(log[..k]) <= Words(log) && (k < |log| ==> Start(log, k) < |Words(log)|)
    decreases |log|
  {
    var n := |log|;
    if k < n {
      WordsPrefix(log[..n - 1], k);
      assert log[..n - 1][..k] == log[..k];
    } else {
      assert log[..k] == log;
    }
  }

  /** Every readable offset is past the reserved word and holds its record. */
  lemma {:induction false} LiveStored(log: Log, o: nat)
    requires o in Live(log)
    ensures 0 < o && Stored(Words(log), o, Live(log)[o])
    decreases |log|
  {
    hide Encoded, AllWords;
    var init, last := log[..|log| - 1], log[|log| - 1];
    if last.Whole? && o == |Words(init)| {
      assert Words(log)[o..o + last.record.Size()] == Encoded(last.record);
    } else {
      LiveStored(init, o);
      StoredLonger(Words(init), PieceWords(last), o, Live(init)[o]);
    }
  }

  /** The readable offsets are the starts of the whole pieces. */
  lemma {:induction false} LiveStarts(log: Log, o: nat)
    ensures o in Live(log) <==> exists k :: 0 <= k < |log| && log[k].Whole? && Start(log, k) == o
    ensures forall k :: 0 <= k < |log| && log[k].Whole? && Start(log, k) == o ==> Live(log)[o] == log[k].record
    decreases |log|
  {
    hide Words, PieceWords;
    if log != [] {
      var n := |log| - 1;
      var init := log[..n];
      LiveStarts(init, o);
      forall k | 0 <= k <= n ensures Start(log, k) == |Words(init[..k])| { assert init[..k] == log[..k]; }
      forall k | 0 <= k < n ensures Start(log, k) < |Words(init)| {
        WordsPrefix(init, k);
        assert init[..k] == log[..k];
      }
      assert init[..n] == init;
      if o in Live(init) {
        var k :| 0 <= k < n && init[k].Whole? && Start(init, k) == o;
        assert log[k].Whole? && Start(log, k) == o;
      }
      if log[n].Whole? && o == |Words(init)| { assert Start(log, n) == o; }
      forall k | 0 <= k < |log| && log[k].Whole? && Start(log, k) == o
        ensures o in Live(log) && Live(log)[o] == log[k].record
      {
        if k < n { assert init[k].Whole? && Start(init, k) == o; }
      }
    }
  }

  // ---------- rolling back ----------

  /** Cutting the pieces is cutting the words. */
  lemma {:induction false} CutWords(log: Log, o: nat)
    requires 0 < o <= |Words(log)|
    ensures Words(Cut(log, o)) == Words(log)[..o]
    decreases |log|
  {
    hide PieceWords;
    if log != [] {
      var init, last := log[..|log| - 1], log[|log| - 1];
      var n := |Words(init)|;
      if o <= n {
        CutWords(init, o);
        assert Words(log)[..o] == Words(init)[..o];
      } else if o < |Words(log)| {
        CutInside(init, last, o);
      } else {
        assert Words(log)[..o] == Words(log);
      }
    }
  }

  lemma CutInside(init: Log, last: Piece, o: nat)
    requires Fits(last) && |Words(init)| < o < |Words(init)| + |PieceWords(last)|
    ensures Words(init + [Torn(PieceWords(last)[..o - |Words(init)|])]) == (Words(init) + PieceWords(last))[..o]
  {
    hide Words, PieceWords;
    var rest := PieceWords(last)[..o - |Words(init)|];
    TornWords(init, rest);
    assert (Words(init) + PieceWords(last))[..o] == Words(init) + rest;
  }

  lemma TornWords(init: Log, rest: seq<Word>)
    requires rest != []
    ensures Words(init + [Torn(rest)]) == Words(init) + rest
  {
    WordsSnoc(init, Torn(rest));
  }

  /** Cutting at the start of a piece drops it and everything after it, and nothing else. */
  lemma {:induction false} CutAt(log: Log, k: nat)
    requires k <= |log|
    ensures Cut(log, Start(log, k)) == log[..k]
    decreases |log|
  {
    hide PieceWords;
    var n := |log|;
    if k == n {
      assert log[..n] == log;
      if n > 0 { WordsPrefix(log, n - 1); }
    } else {
      WordsPrefix(log[..n - 1], k);
      assert log[..n - 1][..k] == log[..k];
      CutAt(log[..n - 1], k);
    }
  }

  /** The records that stay readable are those that end at the offset or below it. */
  lemma {:induction false} CutLive(log: Log, o: nat)
    ensures Live(Cut(log, o)) == map a | a in Live(log) && a + Live(log)[a].Size() <= o :: Live(log)[a]
    decreases |log|
  {
    hide Encoded;
    if log != [] {
      var init, last := log[..|log| - 1], log[|log| - 1];
      forall a | a in Live(init) ensures a + Live(init)[a].Size() <= |Words(init)| { LiveStored(init, a); }
      if o <= |Words(init)| {
        CutLive(init, o);
      } else if o < |Words(log)| {
        WordsSnoc(init, Torn(PieceWords(last)[..o - |Words(init)|]));
      }
    }
  }

  // ---------- runs of pushes and roll backs ----------

  datatype Op = Push(record: Record) | Rollback(offset: nat)

  predicate OpFits(op: Op) { op.Push? ==> op.record.Size() < 0x1_0000_0000 }

  type Ops = ops: seq<Op> | forall k :: 0 <= k < |ops| ==> OpFits(ops[k]) witness []

  /** What one call does to the words. A roll back to 0 or past the end does nothing. */
  function Did(raw: seq<Word>, op: Op): seq<Word>
    requires OpFits(op)
  {
    match op
    case Push(r) => raw + Encoded(r)
    case Rollback(o) => if 0 < o <= |raw| then raw[..o] else raw
  }

  /** And to the pieces. */
  function Logged(log: Log, op: Op): Log
    requires OpFits(op)
  {
    match op
    case Push(r) => log + [Whole(r)]
    case Rollback(o) => if o == 0 then log else Cut(log, o)
  }

  function DidAll(raw: seq<Word>, ops: Ops): seq<Word> {
    if ops == [] then raw else Did(DidAll(raw, ops[..|ops| - 1]), ops[|ops| - 1])
  }

  function LoggedAll(log: Log, ops: Ops): Log {
    if ops == [] then log else Logged(LoggedAll(log, ops[..|ops| - 1]), ops[|ops| - 1])
  }

  lemma {:induction false} CutPastEnd(log: Log, o: nat)
    requires o >= |Words(log)|
    ensures Cut(log, o) == log
    decreases |log|
  {
    if log != [] { WordsPrefix(log, |log| - 1); }
  }

  lemma LoggedWords(log: Log, op: Op)
    requires OpFits(op)
    ensures Words(Logged(log, op)) == Did(Words(log), op)
  {
    match op
    case Push(r) => WordsSnoc(log, Whole(r));
    case Rollback(o) =>
      if 0 < o <= |Words(log)| { CutWords(log, o); } else if o > 0 { CutPastEnd(log, o); }
  }

  /** The words of the arena are those of its pieces after any run. */
  lemma {:induction false} RunWords(log: Log, ops: Ops)
    ensures Words(LoggedAll(log, ops)) == DidAll(Words(log), ops)
    decreases |ops|
  {
    if ops != [] {
      var init, op := ops[..|ops| - 1], ops[|ops| - 1];
      assert OpFits(op);
      RunWords(log, init);
      LoggedWords(LoggedAll(log, init), op);
    }
  }

  /** No roll back in the run goes to `o` or below it, other than to 0, which does nothing. */
  predicate StaysAbove(ops: Ops, o: nat) {
    forall k :: 0 <= k < |ops| && ops[k].Rollback? && ops[k].offset > 0 ==> ops[k].offset > o
  }

  /** As long as no roll back goes below `log`, its pieces stay where they are. */
  lemma {:induction false} RunKeeps(log: Log, first: Op, ops: Ops)
    requires first.Push? && OpFits(first) && StaysAbove(ops, |Words(log)|)
    ensures var after := LoggedAll(Logged(log, first), ops);
      |after| > |log| && after[..|log|] == log
    decreases |ops|
  {
    hide Words, Fits, OpFits;
    if ops == [] {
      assert Logged(log, first)[..|log|] == log;
    } else {
      var init, op := ops[..|ops| - 1], ops[|ops| - 1];
      RunKeeps(log, first, init);
      var before := LoggedAll(Logged(log, first), init);
      match op
      case Push(_) => assert Logged(before, op)[..|log|] == before[..|log|];
      case Rollback(o) => if o > 0 { CutKeeps(before, |log|, o); }
    }
  }

  lemma {:induction false} CutKeeps(log: Log, k: nat, o: nat)
    requires k < |log| && Start(log, k) < o
    ensures |Cut(log, o)| > k && Cut(log, o)[..k] == log[..k]
    decreases |log|
  {
    var n := |log| - 1;
    var init := log[..n];
    assert init[..k] == log[..k];
    if k < n {
      WordsPrefix(init, k);
      if o <= |Words(init)| { CutKeeps(init, k, o); }
    } else {
      assert init == log[..k];
    }
  }

  /**
   The arena after a push that returned `o`, any pushes and roll backs above `o`, and a roll
   back to `o`: the very words and records from before the push.
   */
  lemma RollbackUndoes(log: Log, r: Record, ops: Ops)
    requires r.Size() < 0x1_0000_0000 && StaysAbove(ops, |Words(log)|)
    ensures var o := |Words(log)|; var run := [Push(r)] + ops + [Rollback(o)];
      && o > 0 && (forall k :: 0 <= k < |run| ==> OpFits(run[k]))
      && LoggedAll(log, run) == log && DidAll(Words(log), run) == Words(log)
  {
    hide Words, Logged;
    var o := |Words(log)|;
    var run: Ops := [Push(r)] + ops + [Rollback(o)];
    RunKeeps(log, Push(r), ops);
    RunJoin(log, [Push(r)], ops);
    var most: Ops := [Push(r)] + ops;
    assert run[..|run| - 1] == most;
    var after := LoggedAll(log, most);
    assert LoggedAll(log, [Push(r)]) == Logged(log, Push(r)) by { RunOne(log, Push(r)); }
    WordsPrefix([], 0);
    CutAt(after, |log|);
    assert Start(after, |log|) == o;
    RolledBack(after, o, log);
    RunWords(log, run);
  }

  lemma RunOne(log: Log, op: Op)
    requires OpFits(op)
    ensures LoggedAll(log, [op]) == Logged(log, op)
  {
    hide Logged;
    assert [op][..0] == [];
    assert LoggedAll(log, []) == log;
  }

  lemma RolledBack(after: Log, o: nat, log: Log)
    requires o > 0 && Cut(after, o) == log
    ensures Logged(after, Rollback(o)) == log
  {}

  lemma {:induction false} RunJoin(log: Log, a: Ops, b: Ops)
    ensures LoggedAll(log, a + b) == LoggedAll(LoggedAll(log, a), b)
    decreases |b|
  {
    hide Logged;
    if b == [] {
      assert a + b == a;
    } else {
      assert (a + b)[..|a + b| - 1] == a + b[..|b| - 1];
      RunJoin(log, a, b[..|b| - 1]);
    }
  }

  /** No roll back in the run takes the record of `size` words at `o` away or tears it. */
  predicate Spares(ops: Ops, o: nat, size: nat) {
    forall k :: 0 <= k < |ops| && ops[k].Rollback? && ops[k].offset > 0 ==> ops[k].offset >= o + size
  }

  /** A record can be read after any run that does not roll back into it or below it. */
  lemma Survives(log: Log, o: nat, ops: Ops)
    requires o in Live(log) && Spares(ops, o, Live(log)[o].Size())
    ensures o > 0 && ReadsAs(DidAll(Words(log), ops), o, Live(log)[o])
  {
    hide Words, LoggedAll, DidAll, ReadsAs, Stored, Live;
    StaysLive(log, o, ops);
    RunWords(log, ops);
    LiveStored(LoggedAll(log, ops), o);
    ReadsBack(DidAll(Words(log), ops), o, Live(log)[o]);
  }

  lemma {:induction false} StaysLive(log: Log, o: nat, ops: Ops)
    requires o in Live(log) && Spares(ops, o, Live(log)[o].Size())
    ensures var after := LoggedAll(log, ops); o in Live(after) && Live(after)[o] == Live(log)[o]
    decreases |ops|
  {
    hide Words, Fits;
    if ops != [] {
      var init, op := ops[..|ops| - 1], ops[|ops| - 1];
      assert OpFits(op);
      StaysLive(log, o, init);
      var before := LoggedAll(log, init);
      match op
      case Push(r) =>
        WordsSnoc(before, Whole(r));
        LiveStored(before, o);
      case Rollback(a) => if a > 0 { CutLive(before, a); }
    }
  }

  // ---------- the arena ----------

  class TypeArena {
    var raw: seq<Word>
    /** What was pushed and not rolled back, in order. */
    ghost var log: Log

    ghost predicate Valid()
      reads this
    {
      raw == Words(log)
    }

    constructor ()
      ensures Valid() && raw == [0] && log == []
    {
      raw, log := [0], [];
    }

    /** Nothing at offset 0 or past the end; otherwise the offset itself stands for the pointer. */
    function Get(o: nat): (p: nat)
      reads this
      ensures p == 0 <==> o == 0 || o >= |raw|
      ensures p == 0 || p == o
    {
      if o == 0 || o >= |raw| then 0 else o
    }

    /** Every live offset gives its record back: identifier, flags and members. */
    lemma LiveReadsBack(o: nat)
      requires Valid() && o in Live(log)
      ensures Get(o) == o && ReadsAs(raw, o, Live(log)[o])
    {
      hide Stored;
      LiveStored(log, o);
      ReadsBack(raw, o, Live(log)[o]);
    }

    /** Returns where the record starts, which is never 0. */
    method Push(id: Word, flags: seq<Word>, members: seq<TypeMember>) returns (offset: nat)
      requires Valid() && |raw| + Record(id, flags, members).Size() < 0x1_0000_0000
      modifies this
      ensures Valid() && 0 < offset == |old(raw)|
      ensures var op := Op.Push(Record(id, flags, members)); raw == Did(old(raw), op) && log == Logged(old(log), op)
      ensures Live(log) == Live(old(log))[offset := Record(id, flags, members)] && offset !in Live(old(log))
      ensures |raw| == offset + 3 + |flags| + 3 * |members| && raw[..offset] == old(raw)
      ensures raw[offset] == id && raw[offset + 1] == |raw| - offset && raw[offset + 2] == 3 + |flags|
      ensures raw[offset + 3..offset + 3 + |flags|] == flags
    {
      hide Encoded, AllWords, Words, Live;
      ghost var r := Record(id, flags, members);
      offset := |raw|;
      var flagWords, memberWords := |flags|, 3 * |members|;
      var totalWords := 3 + flagWords + memberWords;
      raw := raw + [id, totalWords, 3 + flagWords] + flags + AllWords(members);
      EncodedIs(r);
      assert raw == old(raw) + Encoded(r);
      Appended(old(raw), r);
      WordsSnoc(log, Whole(r));
      EndIsFree(log);
      log := log + [Whole(r)];
    }

    /** Drops everything from `wordOffset` on; 0 and offsets past the end change nothing. */
    method Rollback(wordOffset: nat)
      requires Valid()
      modifies this
      ensures Valid()
      ensures var op := Op.Rollback(wordOffset); raw == Did(old(raw), op) && log == Logged(old(log), op)
      ensures forall k :: 0 <= k <= |old(log)| && wordOffset == Start(old(log), k) ==> log == old(log)[..k]
      ensures Live(log) == if wordOffset == 0 then Live(old(log))
        else map o | o in Live(old(log)) && o + Live(old(log))[o].Size() <= wordOffset :: Live(old(log))[o]
    {
      hide Words, Live, Cut;
      LoggedWords(log, Op.Rollback(wordOffset));
      CutLive(log, wordOffset);
      forall k | 0 <= k <= |log| && wordOffset == Start(log, k) ensures Cut(log, wordOffset) == log[..k] { CutAt(log, k); }
      if 0 < wordOffset <= |raw| {
        raw := raw[..wordOffset];
      }
      log := if wordOffset == 0 then log else Cut(log, wordOffset);
    }
  }

  lemma Appended(raw: seq<Word>, r: Record)
    requires r.Size() < 0x1_0000_0000
    ensures var more := raw + Encoded(r); var o := |raw|;
      && more[..o] == raw && more[o] == r.id && more[o + 1] == r.Size() && more[o + 2] == 3 + |r.flags|
      && more[o + 3..o + 3 + |r.flags|] == r.flags
  {
    hide AllWords;
    EncodedParts(r);
    assert (raw + Encoded(r))[|raw| + 3..|raw| + 3 + |r.flags|] == Encoded(r)[3..3 + |r.flags|];
  }

  lemma EndIsFree(log: Log)
    ensures |Words(log)| !in Live(log)
  {
    if |Words(log)| in Live(log) { LiveStored(log, |Words(log)|); }
  }

  lemma EncodedIs(r: Record)
    requires r.Size() < 0x1_0000_0000
    ensures Encoded(r) == [r.id, r.Size(), 3 + |r.flags|] + r.flags + AllWords(r.members)
  {}

  // ---------- the list of types ----------

  const ATOMIC_COUNT: nat := 14

  datatype TypeLean = TypeLean(id: nat, arenaOffset: nat, typeSize: nat, kind: nat, alignment: nat)

  /** Size and alignment of the builtin types, by their number. */
  function Atomic(k: nat): TypeLean
    requires k < ATOMIC_COUNT
  {
    var size := if k == 0 then 0 else if k in {1, 2, 3, 7} then 1 else if k in {4, 8} then 2 else if k in {5, 9, 11, 13} then 4 else 8;
    TypeLean(k, 0, size, k, if size == 0 then 1 else size)
  }

  class TypeList {
    var raw: seq<TypeLean>

    /** Every type is found under its own identifier, the builtin ones first. */
    ghost predicate Valid()
      reads this
    {
      && |raw| >= ATOMIC_COUNT
      && (forall k :: 0 <= k < |raw| ==> raw[k].id == k)
      && (forall k :: 0 <= k < ATOMIC_COUNT ==> raw[k] == Atomic(k))
    }

    constructor ()
      ensures Valid() && |raw| == ATOMIC_COUNT
    {
      raw := [];
      new;
      InitPrimitives();
    }

    method InitPrimitives()
      modifies this
      ensures Valid() && |raw| == ATOMIC_COUNT
    {
      raw := [];
      for i := 0 to ATOMIC_COUNT
        invariant |raw| == i && forall k :: 0 <= k < i ==> raw[k] == Atomic(k)
      {
        raw := raw + [Atomic(i)];
      }
    }

    method Push(lean: TypeLean) returns (id: nat)
      requires Valid()
      modifies this
      ensures Valid() && id == |old(raw)| && raw == old(raw) + [lean.(id := id)]
    {
      id := |raw|;
      raw := raw + [lean.(id := id)];
    }

    /** Never below the builtin types. */
    method Rollback(count: nat)
      requires Valid()
      modifies this
      ensures Valid() && raw == if ATOMIC_COUNT <= count <= |old(raw)| then old(raw)[..count] else old(raw)
    {
      if ATOMIC_COUNT <= count <= |raw| {
        raw := raw[..count];
      }
    }
  }
}
