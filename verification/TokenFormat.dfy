/**
 * The compressed stream: a header, tokens in nine forms, an end marker and a checksum. A token is a
 * run of literal bytes, or a copy of bytes already written, which may overlap what it writes.
 */
module TokenFormat {
  import opened Adler

  datatype Option<T> = None | Some(value: T)

  /** The input; nothing is known about what lies behind a stream. */
  type Memory = nat -> Byte

  datatype CopyForm = Near | Middle | Far | FarLong | Wide | WideLong
  {
    function MaxDistance(): nat {
      match this
      case Near => 0x100
      case Middle => 0x4000
      case Far => 0x8_0000
      case FarLong => 0x8_0000
      case Wide => 0x100_0000
      case WideLong => 0x100_0000
    }

    function MaxLength(): nat {
      match this
      case Near => 0x80
      case Middle => 0x100
      case Far => 0x100
      case FarLong => 0x1_0000
      case Wide => 0x100
      case WideLong => 0x1_0000
    }
  }

  datatype LiteralForm = Short | Medium | Long
  {
    function MaxLength(): nat {
      match this
      case Short => 0x20
      case Medium => 0x800
      case Long => 0x1_0000
    }
  }

  datatype Token = Copy(form: CopyForm, distance: nat, length: nat) | Literal(lit: LiteralForm, data: seq<Byte>)
  {
    /** The token can be written in its form. */
    predicate Valid() {
      match this
      case Copy(form, d, n) => 1 <= d <= form.MaxDistance() && 1 <= n <= form.MaxLength()
      case Literal(form, data) => 1 <= |data| <= form.MaxLength()
    }

    function Length(): nat {
      match this
      case Copy(_, _, n) => n
      case Literal(_, data) => |data|
    }
  }

  // ---------------------------------------------------------------------------------------------
  // Bytes
  // ---------------------------------------------------------------------------------------------

  function In2(mem: Memory, i: nat): nat {
    mem(i) * 0x100 + mem(i + 1)
  }

  function In3(mem: Memory, i: nat): nat {
    mem(i) * 0x1_0000 + In2(mem, i + 1)
  }

  function In4(mem: Memory, i: nat): nat {
    mem(i) * 0x100_0000 + In3(mem, i + 1)
  }

  function Bytes2(n: nat): (r: seq<Byte>)
    requires n < 0x1_0000
    ensures |r| == 2
  {
    [n / 0x100, n % 0x100]
  }

  function Bytes3(n: nat): (r: seq<Byte>)
    requires n < 0x100_0000
    ensures |r| == 3
  {
    [n / 0x1_0000] + Bytes2(n % 0x1_0000)
  }

  function Bytes4(n: nat): (r: seq<Byte>)
    requires n < 0x1_0000_0000
    ensures |r| == 4
  {
    [n / 0x100_0000] + Bytes3(n % 0x100_0000)
  }

  /** The memory holds these bytes from i on. */
  ghost predicate Holds(mem: Memory, i: nat, bytes: seq<Byte>) {
    forall k | 0 <= k < |bytes| :: mem(i + k) == bytes[k]
  }

  lemma HoldsConcat(mem: Memory, i: nat, a: seq<Byte>, b: seq<Byte>)
    ensures Holds(mem, i, a + b) <==> Holds(mem, i, a) && Holds(mem, i + |a|, b)
  {
    if Holds(mem, i, a + b) {
      forall k | 0 <= k < |a| ensures mem(i + k) == a[k] {
        assert (a + b)[k] == a[k];
      }
      forall k | 0 <= k < |b| ensures mem(i + |a| + k) == b[k] {
        assert mem(i + (|a| + k)) == (a + b)[|a| + k];
      }
    }
    if Holds(mem, i, a) && Holds(mem, i + |a|, b) {
      forall k | 0 <= k < |a + b| ensures mem(i + k) == (a + b)[k] {
        if k >= |a| {
          assert mem(i + |a| + (k - |a|)) == b[k - |a|];
        }
      }
    }
  }

  lemma Bytes2Hold(mem: Memory, i: nat, n: nat)
    requires n < 0x1_0000
    ensures Holds(mem, i, Bytes2(n)) <==> In2(mem, i) == n
  {
    var b := Bytes2(n);
    assert Holds(mem, i, b) <==> mem(i + 0) == b[0] && mem(i + 1) == b[1];
  }

  lemma Bytes3Hold(mem: Memory, i: nat, n: nat)
    requires n < 0x100_0000
    ensures Holds(mem, i, Bytes3(n)) <==> In3(mem, i) == n
  {
    HoldsConcat(mem, i, [n / 0x1_0000], Bytes2(n % 0x1_0000));
    Bytes2Hold(mem, i + 1, n % 0x1_0000);
    HoldsOne(mem, i, n / 0x1_0000);
  }

  lemma Bytes4Hold(mem: Memory, i: nat, n: nat)
    requires n < 0x1_0000_0000
    ensures Holds(mem, i, Bytes4(n)) <==> In4(mem, i) == n
  {
    HoldsConcat(mem, i, [n / 0x100_0000], Bytes3(n % 0x100_0000));
    Bytes3Hold(mem, i + 1, n % 0x100_0000);
    HoldsOne(mem, i, n / 0x100_0000);
  }

  lemma HoldsOne(mem: Memory, i: nat, b: Byte)
    ensures Holds(mem, i, [b]) <==> mem(i) == b
  {
    assert Holds(mem, i, [b]) <==> mem(i + 0) == [b][0];
  }

  /** The n bytes of memory from i on. */
  function Slice(mem: Memory, i: nat, n: nat): (r: seq<Byte>)
    ensures |r| == n
  {
    seq(n, k requires 0 <= k => mem(i + k))
  }

  lemma HoldsSlice(mem: Memory, i: nat, bytes: seq<Byte>)
    ensures Holds(mem, i, bytes) <==> Slice(mem, i, |bytes|) == bytes
  {
    if Holds(mem, i, bytes) {
      assert forall k | 0 <= k < |bytes| :: Slice(mem, i, |bytes|)[k] == mem(i + k);
    }
  }

  // ---------------------------------------------------------------------------------------------
  // Writing tokens
  // ---------------------------------------------------------------------------------------------

  /** How a token starts: everything but a literal's data. */
  function Head(t: Token): (r: seq<Byte>)
    requires t.Valid()
    ensures |r| > 0
  {
    match t
    case Copy(Near, d, n) => [0x80 + (n - 1), d - 1]
    case Copy(Middle, d, n) => Bytes2(0x4000 + (d - 1)) + [n - 1]
    case Copy(Far, d, n) => Bytes3(0x18_0000 + (d - 1)) + [n - 1]
    case Copy(FarLong, d, n) => Bytes3(0x10_0000 + (d - 1)) + Bytes2(n - 1)
    case Copy(Wide, d, n) => [0x06] + Bytes3(d - 1) + [n - 1]
    case Copy(WideLong, d, n) => [0x04] + Bytes3(d - 1) + Bytes2(n - 1)
    case Literal(Short, data) => [0x20 + (|data| - 1)]
    case Literal(Medium, data) => Bytes2(0x800 + (|data| - 1))
    case Literal(Long, data) => [0x07] + Bytes2(|data| - 1)
  }

  function Encode(t: Token): (r: seq<Byte>)
    requires t.Valid()
    ensures |r| > 0
  {
    Head(t) + (if t.Literal? then t.data else [])
  }

  predicate AllValid(tokens: seq<Token>) {
    forall k | 0 <= k < |tokens| :: tokens[k].Valid()
  }

  function EncodeAll(tokens: seq<Token>): seq<Byte>
    requires AllValid(tokens)
  {
    if |tokens| == 0 then [] else Encode(tokens[0]) + EncodeAll(tokens[1..])
  }

  // ---------------------------------------------------------------------------------------------
  // Reading tokens
  // ---------------------------------------------------------------------------------------------

  /** The token that the memory holds at i, when its first byte starts one. */
  function TokenAt(mem: Memory, i: nat): (r: Option<Token>)
    ensures r.Some? ==> r.value.Valid()
  {
    var b := mem(i);
    if b >= 0x80 then Some(Copy(Near, mem(i + 1) + 1, b - 0x80 + 1))
    else if b >= 0x40 then Some(Copy(Middle, In2(mem, i) - 0x4000 + 1, mem(i + 2) + 1))
    else if b >= 0x20 then Some(Literal(Short, Slice(mem, i + 1, b - 0x20 + 1)))
    else if b >= 0x18 then Some(Copy(Far, In3(mem, i) - 0x18_0000 + 1, mem(i + 3) + 1))
    else if b >= 0x10 then Some(Copy(FarLong, In3(mem, i) - 0x10_0000 + 1, In2(mem, i + 3) + 1))
    else if b >= 0x08 then Some(Literal(Medium, Slice(mem, i + 2, In2(mem, i) - 0x800 + 1)))
    else if b == 0x07 then Some(Literal(Long, Slice(mem, i + 3, In2(mem, i + 1) + 1)))
    else if b == 0x06 then Some(Copy(Wide, In3(mem, i + 1) + 1, mem(i + 4) + 1))
    else if b == 0x04 then Some(Copy(WideLong, In3(mem, i + 1) + 1, In2(mem, i + 4) + 1))
    else None
  }

  /** The nine forms, byte by byte: what the token is, and how many bytes it takes. */
  lemma TokenForms(mem: Memory, i: nat)
    ensures
      var b0, b1, b2, b3, b4, b5 := mem(i), mem(i + 1), mem(i + 2), mem(i + 3), mem(i + 4), mem(i + 5);
      if b0 >= 0x80 then IsCopy(mem, i, b1 + 1, b0 - 0x7f, 2)
      else if b0 >= 0x40 then IsCopy(mem, i, (b0 - 0x40) * 0x100 + b1 + 1, b2 + 1, 3)
      else if b0 >= 0x20 then IsLiteral(mem, i, b0 - 0x1f, 1)
      else if b0 >= 0x18 then IsCopy(mem, i, (b0 - 0x18) * 0x1_0000 + b1 * 0x100 + b2 + 1, b3 + 1, 4)
      else if b0 >= 0x10 then IsCopy(mem, i, (b0 - 0x10) * 0x1_0000 + b1 * 0x100 + b2 + 1, b3 * 0x100 + b4 + 1, 5)
      else if b0 >= 0x08 then IsLiteral(mem, i, (b0 - 0x08) * 0x100 + b1 + 1, 2)
      else if b0 == 0x07 then IsLiteral(mem, i, b1 * 0x100 + b2 + 1, 3)
      else if b0 == 0x06 then IsCopy(mem, i, b1 * 0x1_0000 + b2 * 0x100 + b3 + 1, b4 + 1, 5)
      else if b0 == 0x04 then IsCopy(mem, i, b1 * 0x1_0000 + b2 * 0x100 + b3 + 1, b4 * 0x100 + b5 + 1, 6)
      else TokenAt(mem, i) == None
  {
  }

  /** At i stands a copy of that distance and length, in `size` bytes. */
  ghost predicate IsCopy(mem: Memory, i: nat, distance: nat, length: nat, size: nat) {
    var t := TokenAt(mem, i);
    t.Some? && t.value.Copy? && t.value.distance == distance && t.value.length == length && |Encode(t.value)| == size
  }

  /** At i stands a literal of that length: its bytes follow the first `head` ones, and end it. */
  ghost predicate IsLiteral(mem: Memory, i: nat, length: nat, head: nat) {
    var t := TokenAt(mem, i);
    && t.Some? && t.value.Literal? && |t.value.data| == length && |Encode(t.value)| == head + length
    && forall k | 0 <= k < length :: t.value.data[k] == mem(i + head + k)
  }

  /** Memory holds a copy's bytes exactly where reading it back gives that copy. */
  lemma CopyHeads(mem: Memory, i: nat, t: Token)
    requires t.Valid() && t.Copy?
    ensures Holds(mem, i, Head(t)) <==> TokenAt(mem, i) == Some(t)
  {
    hide Holds, In2, In3, Bytes2, Bytes3;
    var d, n := t.distance - 1, t.length - 1;
    match t.form
    case Near =>
      assert Head(t) == [0x80 + n] + [d];
      HoldsConcat(mem, i, [0x80 + n], [d]);
      HoldsOne(mem, i, 0x80 + n);
      HoldsOne(mem, i + 1, d);
    case Middle =>
      HoldsConcat(mem, i, Bytes2(0x4000 + d), [n]);
      Bytes2Hold(mem, i, 0x4000 + d);
      HoldsOne(mem, i + 2, n);
      First2(mem, i);
    case Far =>
      HoldsConcat(mem, i, Bytes3(0x18_0000 + d), [n]);
      Bytes3Hold(mem, i, 0x18_0000 + d);
      HoldsOne(mem, i + 3, n);
      First3(mem, i);
    case FarLong =>
      HoldsConcat(mem, i, Bytes3(0x10_0000 + d), Bytes2(n));
      Bytes3Hold(mem, i, 0x10_0000 + d);
      Bytes2Hold(mem, i + 3, n);
      First3(mem, i);
    case Wide =>
      HoldsConcat(mem, i, [0x06] + Bytes3(d), [n]);
      HoldsConcat(mem, i, [0x06], Bytes3(d));
      HoldsOne(mem, i, 0x06);
      Bytes3Hold(mem, i + 1, d);
      HoldsOne(mem, i + 4, n);
    case WideLong =>
      HoldsConcat(mem, i, [0x04] + Bytes3(d), Bytes2(n));
      HoldsConcat(mem, i, [0x04], Bytes3(d));
      HoldsOne(mem, i, 0x04);
      Bytes3Hold(mem, i + 1, d);
      Bytes2Hold(mem, i + 4, n);
  }

  lemma First2(mem: Memory, i: nat)
    ensures In2(mem, i) / 0x100 == mem(i)
    ensures mem(i) * 0x100 <= In2(mem, i) < mem(i) * 0x100 + 0x100
  {
  }

  lemma First3(mem: Memory, i: nat)
    ensures In3(mem, i) / 0x1_0000 == mem(i)
    ensures mem(i) * 0x1_0000 <= In3(mem, i) < mem(i) * 0x1_0000 + 0x1_0000
  {
  }

  lemma LiteralHeads(mem: Memory, i: nat, t: Token)
    requires t.Valid() && t.Literal?
    ensures Holds(mem, i, Encode(t)) <==> TokenAt(mem, i) == Some(t)
  {
    hide Holds, In2, In3, Bytes2, Bytes3, Slice;
    var n := |t.data| - 1;
    HoldsConcat(mem, i, Head(t), t.data);
    HoldsSlice(mem, i + |Head(t)|, t.data);
    match t.lit
    case Short =>
      HoldsOne(mem, i, 0x20 + n);
    case Medium =>
      Bytes2Hold(mem, i, 0x800 + n);
      First2(mem, i);
    case Long =>
      HoldsConcat(mem, i, [0x07], Bytes2(n));
      HoldsOne(mem, i, 0x07);
      Bytes2Hold(mem, i + 1, n);
  }

  /** A token's encoding is what reads back as that token, and nothing else does. */
  lemma ReadsBack(mem: Memory, i: nat, t: Token)
    requires t.Valid()
    ensures Holds(mem, i, Encode(t)) <==> TokenAt(mem, i) == Some(t)
  {
    if t.Copy? {
      CopyHeads(mem, i, t);
      assert Encode(t) == Head(t);
    } else {
      LiteralHeads(mem, i, t);
    }
  }
}
