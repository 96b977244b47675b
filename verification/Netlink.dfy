/** The netlink attribute codec and the decoding of path manager events. */
module Netlink {
  import opened Words

  type Bytes = seq<Byte>
  type Attributes = map<U16, Bytes>

  datatype Endian = Little | Big

  function Word16(en: Endian, s: Bytes): U16
    requires |s| >= 2
  {
    var first: int, second: int := s[0], s[1];
    if en.Little? then first + 0x100 * second else second + 0x100 * first
  }

  function Bytes16(en: Endian, x: U16): Bytes {
    if en.Little? then [x % 0x100, x / 0x100] else [x / 0x100, x % 0x100]
  }

  function Word32(en: Endian, s: Bytes): U32
    requires |s| >= 4
  {
    if en.Little? then Word16(en, s[..2]) + 0x1_0000 * Word16(en, s[2..])
    else Word16(en, s[2..]) + 0x1_0000 * Word16(en, s[..2])
  }

  function Bytes32(en: Endian, x: U32): Bytes {
    if en.Little? then Bytes16(en, x % 0x1_0000) + Bytes16(en, x / 0x1_0000)
    else Bytes16(en, x / 0x1_0000) + Bytes16(en, x % 0x1_0000)
  }

  lemma Word16Inverts(en: Endian, x: U16)
    ensures Word16(en, Bytes16(en, x)) == x
  {
  }

  lemma Bytes16Inverts(en: Endian, s: Bytes)
    requires |s| == 2
    ensures Bytes16(en, Word16(en, s)) == s
  {
  }

  lemma Word32Inverts(en: Endian, x: U32)
    ensures Word32(en, Bytes32(en, x)) == x
  {
    var lo, hi := Bytes16(en, x % 0x1_0000), Bytes16(en, x / 0x1_0000);
    Word16Inverts(en, x % 0x1_0000);
    Word16Inverts(en, x / 0x1_0000);
    assert (lo + hi)[..2] == lo && (lo + hi)[2..] == hi && (hi + lo)[..2] == hi && (hi + lo)[2..] == lo;
    hide Word16, Bytes16;
  }

  lemma HalvesOf(lo: int, hi: int)
    requires 0 <= lo < 0x1_0000
    ensures (lo + 0x1_0000 * hi) % 0x1_0000 == lo && (lo + 0x1_0000 * hi) / 0x1_0000 == hi
  {
  }

  lemma Bytes32Inverts(en: Endian, s: Bytes)
    requires |s| == 4
    ensures Bytes32(en, Word32(en, s)) == s
  {
    hide Word16, Bytes16;
    Bytes16Inverts(en, s[..2]);
    Bytes16Inverts(en, s[2..]);
    assert s == s[..2] + s[2..];
    if en.Little? {
      HalvesOf(Word16(en, s[..2]), Word16(en, s[2..]));
    } else {
      HalvesOf(Word16(en, s[2..]), Word16(en, s[..2]));
    }
  }

  /** Words by their octets, in either byte order. */
  lemma WordsByOctet()
    ensures Word16(Little, [0x34, 0x12]) == 0x1234 == Word16(Big, [0x12, 0x34])
    ensures Word32(Little, [0x78, 0x56, 0x34, 0x12]) == 0x1234_5678 == Word32(Big, [0x12, 0x34, 0x56, 0x78])
  {
    var little, big := [0x78, 0x56, 0x34, 0x12], [0x12, 0x34, 0x56, 0x78];
    assert little[..2] == [0x78, 0x56] && little[2..] == [0x34, 0x12];
    assert big[..2] == [0x12, 0x34] && big[2..] == [0x56, 0x78];
  }

  /** The next multiple of four. */
  function Align(n: nat): (r: nat)
    ensures r % 4 == 0 && n <= r < n + 4
  {
    (n + 3) / 4 * 4
  }

  /** One attribute as it lies in a message: the type field with its flag bits, the payload
      and, fewer than four of them, the octets that fill it up to a multiple of four. */
  datatype Raw = Raw(typ: U16, payload: Bytes, padding: Bytes)

  predicate WellFormed(r: Raw) {
    |r.payload| + 4 < 0x1_0000 && |r.padding| < 4 && (|r.payload| + |r.padding|) % 4 == 0
  }

  /** The two bits above the type number are flags. */
  lemma MaskedDropsFlags(typ: U16, flags: nat)
    requires typ < 0x4000 && flags < 4
    ensures Masked(typ + 0x4000 * flags) == typ
  {
  }

  /** Padded to four octets there is only one way. */
  lemma PaddedLength(r: Raw)
    requires WellFormed(r)
    ensures Align(|r.payload|) == |r.payload| + |r.padding| && Align(|r.payload| + 4) == |r.payload| + |r.padding| + 4
  {
  }

  function Masked(typ: U16): U16 {
    typ % 0x4000
  }

  function Encode(en: Endian, r: Raw): Bytes
    requires WellFormed(r)
  {
    Bytes16(en, |r.payload| + 4) + Bytes16(en, r.typ) + r.payload + r.padding
  }

  function Join(en: Endian, rs: seq<Raw>): Bytes
    requires forall r :: r in rs ==> WellFormed(r)
  {
    if rs == [] then [] else Encode(en, rs[0]) + Join(en, rs[1..])
  }

  predicate Distinct(rs: seq<Raw>) {
    forall i, j :: 0 <= i < j < |rs| ==> Masked(rs[i].typ) != Masked(rs[j].typ)
  }

  /** The attributes by masked type. Nothing in this depends on their order. */
  ghost predicate IsTable(m: Attributes, rs: seq<Raw>) {
    && (forall r :: r in rs ==> Masked(r.typ) in m && m[Masked(r.typ)] == r.payload)
    && (forall t :: t in m ==> exists r :: r in rs && Masked(r.typ) == t)
  }

  /** The value-level meaning of the parser, `acc` being the attributes already read. */
  function Parse(en: Endian, data: Bytes, acc: Attributes): Option<Attributes>
    decreases |data|
  {
    if |data| == 0 then Some(acc)
    else if |data| < 4 then None
    else
      var n := Word16(en, data);
      if n < 4 || n > |data| || Align(n) > |data| then None
      else
        var typ := Masked(Word16(en, data[2..]));
        if typ in acc then None
        else Parse(en, data[Align(n)..], acc[typ := data[4..n]])
  }

  method NetlinkAttrs(en: Endian, data: Bytes) returns (r: Option<Attributes>)
    ensures r == Parse(en, data, map[])
  {
    var result: Attributes := map[];
    var rest := data;
    while |rest| > 0
      invariant Parse(en, rest, result) == Parse(en, data, map[])
      decreases |rest|
    {
      if |rest| < 4 {
        return None;
      }
      var n := Word16(en, rest);
      if n < 4 || n > |rest| || Align(n) > |rest| {
        return None;
      }
      var typ := Masked(Word16(en, rest[2..]));
      if typ in result {
        return None;
      }
      result := result[typ := rest[4..n]];
      rest := rest[Align(n)..];
    }
    r := Some(result);
  }

  /** Reading back the first of a sequence of encoded attributes. */
  lemma HeadParses(en: Endian, r: Raw, rest: Bytes)
    requires WellFormed(r)
    ensures var data := Encode(en, r) + rest;
      && |data| >= 4
      && Word16(en, data) == |r.payload| + 4
      && Word16(en, data[2..]) == r.typ
      && Align(|r.payload| + 4) <= |data|
      && data[4..|r.payload| + 4] == r.payload
      && data[Align(|r.payload| + 4)..] == rest
  {
    var data := Encode(en, r) + rest;
    var len, typ := Bytes16(en, |r.payload| + 4), Bytes16(en, r.typ);
    Word16Inverts(en, |r.payload| + 4);
    Word16Inverts(en, r.typ);
    PaddedLength(r);
    assert |len| == 2 == |typ|;
    Concatenated(len, typ, r.payload, r.padding, rest);
    hide Bytes16, Align;
  }

  lemma Concatenated(len: Bytes, typ: Bytes, payload: Bytes, padding: Bytes, rest: Bytes)
    requires |len| == 2 == |typ|
    ensures var data := len + typ + payload + padding + rest;
      && data[0] == len[0] && data[1] == len[1] && data[2] == typ[0] && data[3] == typ[1]
      && data[4..|payload| + 4] == payload
      && data[|payload| + |padding| + 4..] == rest
  {
  }

  predicate Unseen(rs: seq<Raw>, acc: Attributes) {
    Distinct(rs) && forall r :: r in rs ==> Masked(r.typ) !in acc
  }

  /** The attributes of `rs` and those already in `acc`. */
  ghost predicate Extends(m: Attributes, rs: seq<Raw>, acc: Attributes) {
    && (forall r :: r in rs ==> Masked(r.typ) in m && m[Masked(r.typ)] == r.payload)
    && (forall t :: t in m ==> t in acc || exists r :: r in rs && Masked(r.typ) == t)
    && (forall t :: t in acc ==> t in m && m[t] == acc[t])
  }

  lemma ExtendsStep(m: Attributes, rs: seq<Raw>, acc: Attributes)
    requires rs != [] && Masked(rs[0].typ) !in acc
    requires Extends(m, rs[1..], acc[Masked(rs[0].typ) := rs[0].payload])
    ensures Extends(m, rs, acc)
  {
    assert rs == [rs[0]] + rs[1..];
    var acc' := acc[Masked(rs[0].typ) := rs[0].payload];
    assert Masked(rs[0].typ) in acc';
    forall t | t in m
      ensures t in acc || exists r :: r in rs && Masked(r.typ) == t
    {
      if t !in acc && t != Masked(rs[0].typ) {
        assert t !in acc';
        var r :| r in rs[1..] && Masked(r.typ) == t;
        assert r in rs;
      }
    }
    forall t | t in acc
      ensures t in m && m[t] == acc[t]
    {
      assert t in acc' && acc'[t] == acc[t];
    }
  }

  /** Parsing takes the attributes off one by one. */
  lemma ParseStep(en: Endian, rs: seq<Raw>, acc: Attributes)
    requires rs != [] && forall r :: r in rs ==> WellFormed(r)
    ensures Parse(en, Join(en, rs), acc) ==
      if Masked(rs[0].typ) in acc then None
      else Parse(en, Join(en, rs[1..]), acc[Masked(rs[0].typ) := rs[0].payload])
  {
    HeadParses(en, rs[0], Join(en, rs[1..]));
    assert Join(en, rs) == Encode(en, rs[0]) + Join(en, rs[1..]);
    hide Encode, Word16, Align, Join;
  }

  lemma {:induction false} ParseJoinFrom(en: Endian, rs: seq<Raw>, acc: Attributes)
    requires forall r :: r in rs ==> WellFormed(r)
    ensures Parse(en, Join(en, rs), acc).Some? <==> Unseen(rs, acc)
    ensures Unseen(rs, acc) ==> Extends(Parse(en, Join(en, rs), acc).value, rs, acc)
    decreases |rs|
  {
    if rs == [] {
    } else {
      var r, rest := rs[0], rs[1..];
      ParseStep(en, rs, acc);
      UnseenStep(rs, acc);
      hide Unseen, Extends, Parse, Join;
      if Masked(r.typ) !in acc {
        var acc' := acc[Masked(r.typ) := r.payload];
        ParseJoinFrom(en, rest, acc');
        if Unseen(rest, acc') {
          ExtendsStep(Parse(en, Join(en, rs), acc).value, rs, acc);
        }
      }
    }
  }

  lemma UnseenStep(rs: seq<Raw>, acc: Attributes)
    requires rs != []
    ensures Unseen(rs, acc) <==>
      Masked(rs[0].typ) !in acc && Unseen(rs[1..], acc[Masked(rs[0].typ) := rs[0].payload])
  {
    var r, rest := rs[0], rs[1..];
    assert forall i :: 0 <= i < |rest| ==> rest[i] == rs[i + 1];
    if Masked(r.typ) !in acc && Unseen(rest, acc[Masked(r.typ) := r.payload]) {
      forall i, j | 0 <= i < j < |rs|
        ensures Masked(rs[i].typ) != Masked(rs[j].typ)
      {
        assert rs[j] == rest[j - 1] && rest[j - 1] in rest;
      }
    }
  }

  /** Round trip: attributes with distinct types come back exactly, whatever their order,
      flag bits and padding; and a repeated type is always refused. */
  lemma ParseJoin(en: Endian, rs: seq<Raw>)
    requires forall r :: r in rs ==> WellFormed(r)
    ensures Parse(en, Join(en, rs), map[]).Some? <==> Distinct(rs)
    ensures Distinct(rs) ==> IsTable(Parse(en, Join(en, rs), map[]).value, rs)
  {
    ParseJoinFrom(en, rs, map[]);
  }

  /** A short attribute, octet by octet, in either byte order. */
  lemma ShortAttribute(typ: Byte, payload: Bytes, padding: Bytes)
    requires |payload| <= 200 && WellFormed(Raw(typ, payload, padding))
    ensures Encode(Little, Raw(typ, payload, padding)) == [|payload| + 4, 0, typ, 0] + payload + padding
    ensures Encode(Big, Raw(typ, payload, padding)) == [0, |payload| + 4, 0, typ] + payload + padding
  {
  }

  lemma JoinStep(en: Endian, r: Raw, rest: seq<Raw>)
    requires WellFormed(r) && forall x :: x in rest ==> WellFormed(x)
    ensures Join(en, [r] + rest) == Encode(en, r) + Join(en, rest)
  {
    assert ([r] + rest)[1..] == rest;
  }

  /** Two attributes as the kernel sends them, in either byte order: local ID 1 and remote
      ID 2, each padded to eight octets. */
  lemma KernelAttributes()
    ensures Parse(Little, [5, 0, 3, 0, 1, 0, 0, 0] + [5, 0, 4, 0, 2, 0, 0, 0], map[]) == Some(map[3 := [1], 4 := [2]])
    ensures Parse(Big, [0, 5, 0, 3, 1, 0, 0, 0] + [0, 5, 0, 4, 2, 0, 0, 0], map[]) == Some(map[3 := [1], 4 := [2]])
  {
    hide Encode, Parse, Join;
    KernelIds();
    var first, second := Raw(3, [1], [0, 0, 0]), Raw(4, [2], [0, 0, 0]);
    TwoAttributes(Little, first, second);
    TwoAttributes(Big, first, second);
  }

  lemma KernelIds()
    ensures Encode(Little, Raw(3, [1], [0, 0, 0])) == [5, 0, 3, 0, 1, 0, 0, 0]
    ensures Encode(Little, Raw(4, [2], [0, 0, 0])) == [5, 0, 4, 0, 2, 0, 0, 0]
    ensures Encode(Big, Raw(3, [1], [0, 0, 0])) == [0, 5, 0, 3, 1, 0, 0, 0]
    ensures Encode(Big, Raw(4, [2], [0, 0, 0])) == [0, 5, 0, 4, 2, 0, 0, 0]
  {
    ShortAttribute(3, [1], [0, 0, 0]);
    ShortAttribute(4, [2], [0, 0, 0]);
    hide Encode;
  }

  lemma Nothing(en: Endian, acc: Attributes)
    ensures Join(en, []) == [] && Parse(en, [], acc) == Some(acc)
  {
  }

  lemma TwoAttributes(en: Endian, r: Raw, x: Raw)
    requires WellFormed(r) && WellFormed(x) && r.typ < 0x4000 && x.typ < 0x4000 && r.typ != x.typ
    ensures Parse(en, Encode(en, r) + Encode(en, x), map[]) == Some(map[r.typ := r.payload, x.typ := x.payload])
  {
    hide Encode, Join, Parse;
    Nothing(en, map[r.typ := r.payload, x.typ := x.payload]);
    JoinStep(en, x, []);
    JoinStep(en, r, [x]);
    var both := [r, x];
    assert [x] + [] == [x] && [r] + [x] == both && both[1..] == [x] && [x][1..] == [];
    assert Encode(en, x) + [] == Encode(en, x);
    ParseStep(en, both, map[]);
    ParseStep(en, [x], map[r.typ := r.payload]);
  }

  ghost predicate Attributed(en: Endian, rs: seq<Raw>, data: Bytes) {
    (forall r :: r in rs ==> WellFormed(r)) && Distinct(rs) && data == Join(en, rs)
  }

  /** The attribute at the head of data that the parser accepts. */
  lemma HeadFactors(en: Endian, data: Bytes) returns (r: Raw)
    requires |data| >= 4
    requires 4 <= Word16(en, data) && Align(Word16(en, data)) <= |data|
    ensures WellFormed(r) && r.typ == Word16(en, data[2..]) && r.payload == data[4..Word16(en, data)]
    ensures data == Encode(en, r) + data[Align(Word16(en, data))..]
  {
    var n := Word16(en, data);
    r := Raw(Word16(en, data[2..]), data[4..n], data[n..Align(n)]);
    assert Align(n) == Align(n - 4) + 4;
    Bytes16Inverts(en, data[..2]);
    Bytes16Inverts(en, data[2..4]);
    assert Word16(en, data[..2]) == n && Word16(en, data[2..4]) == r.typ;
    hide Word16, Bytes16;
    assert data == data[..2] + data[2..4] + data[4..n] + data[n..Align(n)] + data[Align(n)..];
  }

  lemma {:induction false} Factor(en: Endian, data: Bytes, acc: Attributes) returns (rs: seq<Raw>)
    requires Parse(en, data, acc).Some?
    ensures forall r :: r in rs ==> WellFormed(r)
    ensures data == Join(en, rs)
    decreases |data|
  {
    if |data| == 0 {
      rs := [];
    } else {
      var n := Word16(en, data);
      var r := HeadFactors(en, data);
      var rest := Factor(en, data[Align(n)..], acc[Masked(r.typ) := r.payload]);
      hide Word16, Encode, Align, WellFormed;
      rs := [r] + rest;
      assert rs[0] == r && rs[1..] == rest;
    }
  }

  /** The parser accepts exactly the sequences of padded attributes with distinct masked
      types. */
  lemma AcceptsExactly(en: Endian, data: Bytes)
    ensures Parse(en, data, map[]).Some? <==> exists rs :: Attributed(en, rs, data)
  {
    if Parse(en, data, map[]).Some? {
      var rs := Factor(en, data, map[]);
      ParseJoin(en, rs);
      assert Attributed(en, rs, data);
    } else if rs :| Attributed(en, rs, data) {
      ParseJoin(en, rs);
    }
  }

  lemma TableIncluded(m: Attributes, n: Attributes, rs: seq<Raw>, ts: seq<Raw>)
    requires IsTable(m, rs) && IsTable(n, ts)
    requires forall r :: r in rs ==> r in ts
    ensures forall t :: t in m ==> t in n && m[t] == n[t]
  {
    forall t | t in m
      ensures t in n && m[t] == n[t]
    {
      var r :| r in rs && Masked(r.typ) == t;
      assert r in ts;
    }
  }

  lemma TablesAgree(m: Attributes, n: Attributes, rs: seq<Raw>, ts: seq<Raw>)
    requires IsTable(m, rs) && IsTable(n, ts)
    requires forall r :: r in rs <==> r in ts
    ensures m == n
  {
    TableIncluded(m, n, rs, ts);
    TableIncluded(n, m, ts, rs);
    hide IsTable;
  }

  lemma OccursOnce(rs: seq<Raw>, a: nat)
    requires Distinct(rs) && a < |rs|
    ensures multiset(rs)[rs[a]] == 1
  {
    assert rs == rs[..a] + [rs[a]] + rs[a+1..];
    assert rs[a] !in rs[..a] && rs[a] !in rs[a+1..];
  }

  lemma OccursTwice(ts: seq<Raw>, i: nat, j: nat)
    requires i < j < |ts| && ts[i] == ts[j]
    ensures multiset(ts)[ts[i]] >= 2
  {
    assert ts == ts[..i] + [ts[i]] + ts[i+1..j] + [ts[j]] + ts[j+1..];
  }

  lemma DistinctPermutes(rs: seq<Raw>, ts: seq<Raw>)
    requires multiset(rs) == multiset(ts) && Distinct(rs)
    ensures Distinct(ts)
  {
    forall i, j | 0 <= i < j < |ts|
      ensures Masked(ts[i].typ) != Masked(ts[j].typ)
    {
      assert ts[i] in multiset(rs) && ts[j] in multiset(rs);
      var a :| 0 <= a < |rs| && rs[a] == ts[i];
      var b :| 0 <= b < |rs| && rs[b] == ts[j];
      OccursOnce(rs, a);
      if a == b {
        OccursTwice(ts, i, j);
      }
    }
  }

  lemma SameMembers(rs: seq<Raw>, ts: seq<Raw>)
    requires multiset(rs) == multiset(ts)
    ensures forall r :: r in rs <==> r in ts
  {
    forall r
      ensures r in rs <==> r in ts
    {
      assert r in rs <==> r in multiset(rs);
      assert r in ts <==> r in multiset(ts);
    }
  }

  /** Parsing does not depend on the order of the attributes. */
  lemma OrderIndependent(en: Endian, rs: seq<Raw>, ts: seq<Raw>)
    requires multiset(rs) == multiset(ts) && forall r :: r in rs ==> WellFormed(r)
    ensures forall r :: r in ts ==> WellFormed(r)
    ensures Parse(en, Join(en, rs), map[]) == Parse(en, Join(en, ts), map[])
  {
    SameMembers(rs, ts);
    hide Parse, Join, WellFormed, Distinct, IsTable;
    ParseJoin(en, rs);
    ParseJoin(en, ts);
    if Distinct(rs) {
      DistinctPermutes(rs, ts);
      var m, n := Parse(en, Join(en, rs), map[]).value, Parse(en, Join(en, ts), map[]).value;
      TablesAgree(m, n, rs, ts);
    } else if Distinct(ts) {
      DistinctPermutes(ts, rs);
    }
  }

  function Zeros(n: nat): Bytes {
    seq(n, _ => 0)
  }

  /** The attribute as the agent writes it: length and type in native order, zero padding.
      The length is cut to sixteen bits. */
  function Written(en: Endian, typ: U16, data: Bytes): Bytes {
    Bytes16(en, (|data| + 4) % 0x1_0000) + Bytes16(en, typ) + data + Zeros(Align(|data|) - |data|)
  }

  method EncodeAttr(en: Endian, typ: U16, data: Bytes) returns (b: array<Byte>)
    ensures fresh(b) && b[..] == Written(en, typ, data)
    ensures b.Length % 4 == 0 && |data| + 4 <= b.Length < |data| + 8
    ensures forall i :: |data| + 4 <= i < b.Length ==> b[i] == 0
  {
    var size := Align(|data| + 4);
    assert size == Align(|data|) + 4;
    var head := Bytes16(en, (|data| + 4) % 0x1_0000) + Bytes16(en, typ);
    assert |head| == 4;
    hide Bytes16, Align;
    b := Fill(head, data, size);
  }

  /** What the parser has read it keeps. */
  lemma {:induction false} ParseKeeps(en: Endian, data: Bytes, acc: Attributes, t: U16)
    requires t in acc && Parse(en, data, acc).Some?
    ensures t in Parse(en, data, acc).value && Parse(en, data, acc).value[t] == acc[t]
    decreases |data|
  {
    if |data| != 0 {
      var n, typ := Word16(en, data), Masked(Word16(en, data[2..]));
      ParseKeeps(en, data[Align(n)..], acc[typ := data[4..n]], t);
    }
  }

  /** The agent's encoding is read back as that one attribute exactly if its length fits the
      length field; a longer payload never comes back. */
  lemma WrittenReadsBackExactly(en: Endian, typ: U16, data: Bytes)
    ensures Parse(en, Written(en, typ, data), map[]) == Some(map[Masked(typ) := data]) <==> |data| + 4 < 0x1_0000
  {
    if |data| + 4 < 0x1_0000 {
      var r := Raw(typ, data, Zeros(Align(|data|) - |data|));
      assert Encode(en, r) + [] == Encode(en, r) == Written(en, typ, data);
      HeadParses(en, r, []);
    } else {
      CutLength(en, typ, data);
    }
  }

  lemma CutLength(en: Endian, typ: U16, data: Bytes)
    requires |data| + 4 >= 0x1_0000
    ensures Parse(en, Written(en, typ, data), map[]) != Some(map[Masked(typ) := data])
  {
    var b, n := Written(en, typ, data), (|data| + 4) % 0x1_0000;
    Word16Inverts(en, n);
    Word16Inverts(en, typ);
    assert b[0] == Bytes16(en, n)[0] && b[1] == Bytes16(en, n)[1];
    assert b[2] == Bytes16(en, typ)[0] && b[3] == Bytes16(en, typ)[1];
    assert Word16(en, b) == n && Word16(en, b[2..]) == typ;
    hide Written, Bytes16, Word16;
    if Parse(en, b, map[]).Some? {
      var acc: Attributes := map[];
      ParseKeeps(en, b[Align(n)..], acc[Masked(typ) := b[4..n]], Masked(typ));
      assert |b[4..n]| < |data|;
    }
  }

  /** A buffer of the given size with the header and the data at its front. */
  method Fill(head: Bytes, data: Bytes, size: nat) returns (b: array<Byte>)
    requires |head| + |data| <= size
    ensures fresh(b) && b[..] == head + data + Zeros(size - |head| - |data|)
  {
    b := new Byte[size](_ => 0);
    CopyInto(b, 0, head);
    ghost var headed := b[..];
    assert headed == head + Zeros(size - |head|);
    CopyInto(b, |head|, data);
    assert headed[..|head|] == head;
    assert headed[|head| + |data|..] == Zeros(size - |head| - |data|);
  }

  method CopyInto(b: array<Byte>, at: nat, data: Bytes)
    requires at + |data| <= b.Length
    modifies b
    ensures b[..] == old(b[..at]) + data + old(b[at + |data|..])
  {
    for i := 0 to |data|
      invariant forall j :: 0 <= j < b.Length ==>
        b[j] == if at <= j < at + i then data[j - at] else old(b[j])
    {
      b[at + i] := data[i];
    }
  }
}
