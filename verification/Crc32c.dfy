/** CRC32C (section 12.1 of RFC 3720): the engine's table-driven loop against the bit-serial
    definition with the reflected Castagnoli polynomial, and the error bursts it detects. */
module Crc32c {
  import opened Common
  import opened ShiftRegister

  const POLY: bv32 := 0x82F6_3B78
  const ALL_ONES: bv32 := 0xFFFF_FFFF

  // ---- The bit-serial definition ----

  /** One shift of the register, with feedback when a one falls out. */
  function BitStep(s: bv32): bv32 {
    if s & 1 == 1 then (s >> 1) ^ POLY else s >> 1
  }

  function BitOf(b: bool): bv32 {
    if b then 1 else 0
  }

  function Xor(x: bv32, y: bv32): bv32 {
    x ^ y
  }

  /** The register after a message of bits, first bit first. */
  function Register(s: bv32, bits: seq<bool>): bv32 {
    Feed(BitStep, Xor, BitOf, s, bits)
  }

  /** The bits of a byte, least significant first. */
  function BitsOfByte(b: Byte): (r: seq<bool>)
    ensures |r| == 8
  {
    [b & 1 == 1, b & 2 == 2, b & 4 == 4, b & 8 == 8, b & 16 == 16, b & 32 == 32, b & 64 == 64, b & 128 == 128]
  }

  function Bits(data: Bytes): (r: seq<bool>)
    ensures |r| == 8 * |data|
  {
    if data == [] then [] else BitsOfByte(data[0]) + Bits(data[1..])
  }

  function Checksum(data: Bytes): bv32 {
    Register(ALL_ONES, Bits(data)) ^ ALL_ONES
  }

  // ---- The table ----

  function Step8(s: bv32): bv32 {
    BitStep(BitStep(BitStep(BitStep(BitStep(BitStep(BitStep(BitStep(s))))))))
  }

  // The lookup table of the engine, in sixteen rows of sixteen.

  function Row0(j: bv8): bv32 {
    if j == 0 then 0x00000000 else if j == 1 then 0xF26B8303 else if j == 2 then 0xE13B70F7 else if j == 3 then 0x1350F3F4
    else if j == 4 then 0xC79A971F else if j == 5 then 0x35F1141C else if j == 6 then 0x26A1E7E8 else if j == 7 then 0xD4CA64EB
    else if j == 8 then 0x8AD958CF else if j == 9 then 0x78B2DBCC else if j == 10 then 0x6BE22838 else if j == 11 then 0x9989AB3B
    else if j == 12 then 0x4D43CFD0 else if j == 13 then 0xBF284CD3 else if j == 14 then 0xAC78BF27 else 0x5E133C24
  }

  function Row1(j: bv8): bv32 {
    if j == 0 then 0x105EC76F else if j == 1 then 0xE235446C else if j == 2 then 0xF165B798 else if j == 3 then 0x030E349B
    else if j == 4 then 0xD7C45070 else if j == 5 then 0x25AFD373 else if j == 6 then 0x36FF2087 else if j == 7 then 0xC494A384
    else if j == 8 then 0x9A879FA0 else if j == 9 then 0x68EC1CA3 else if j == 10 then 0x7BBCEF57 else if j == 11 then 0x89D76C54
    else if j == 12 then 0x5D1D08BF else if j == 13 then 0xAF768BBC else if j == 14 then 0xBC267848 else 0x4E4DFB4B
  }

  function Row2(j: bv8): bv32 {
    if j == 0 then 0x20BD8EDE else if j == 1 then 0xD2D60DDD else if j == 2 then 0xC186FE29 else if j == 3 then 0x33ED7D2A
    else if j == 4 then 0xE72719C1 else if j == 5 then 0x154C9AC2 else if j == 6 then 0x061C6936 else if j == 7 then 0xF477EA35
    else if j == 8 then 0xAA64D611 else if j == 9 then 0x580F5512 else if j == 10 then 0x4B5FA6E6 else if j == 11 then 0xB93425E5
    else if j == 12 then 0x6DFE410E else if j == 13 then 0x9F95C20D else if j == 14 then 0x8CC531F9 else 0x7EAEB2FA
  }

  function Row3(j: bv8): bv32 {
    if j == 0 then 0x30E349B1 else if j == 1 then 0xC288CAB2 else if j == 2 then 0xD1D83946 else if j == 3 then 0x23B3BA45
    else if j == 4 then 0xF779DEAE else if j == 5 then 0x05125DAD else if j == 6 then 0x1642AE59 else if j == 7 then 0xE4292D5A
    else if j == 8 then 0xBA3A117E else if j == 9 then 0x4851927D else if j == 10 then 0x5B016189 else if j == 11 then 0xA96AE28A
    else if j == 12 then 0x7DA08661 else if j == 13 then 0x8FCB0562 else if j == 14 then 0x9C9BF696 else 0x6EF07595
  }

  function Row4(j: bv8): bv32 {
    if j == 0 then 0x417B1DBC else if j == 1 then 0xB3109EBF else if j == 2 then 0xA0406D4B else if j == 3 then 0x522BEE48
    else if j == 4 then 0x86E18AA3 else if j == 5 then 0x748A09A0 else if j == 6 then 0x67DAFA54 else if j == 7 then 0x95B17957
    else if j == 8 then 0xCBA24573 else if j == 9 then 0x39C9C670 else if j == 10 then 0x2A993584 else if j == 11 then 0xD8F2B687
    else if j == 12 then 0x0C38D26C else if j == 13 then 0xFE53516F else if j == 14 then 0xED03A29B else 0x1F682198
  }

  function Row5(j: bv8): bv32 {
    if j == 0 then 0x5125DAD3 else if j == 1 then 0xA34E59D0 else if j == 2 then 0xB01EAA24 else if j == 3 then 0x42752927
    else if j == 4 then 0x96BF4DCC else if j == 5 then 0x64D4CECF else if j == 6 then 0x77843D3B else if j == 7 then 0x85EFBE38
    else if j == 8 then 0xDBFC821C else if j == 9 then 0x2997011F else if j == 10 then 0x3AC7F2EB else if j == 11 then 0xC8AC71E8
    else if j == 12 then 0x1C661503 else if j == 13 then 0xEE0D9600 else if j == 14 then 0xFD5D65F4 else 0x0F36E6F7
  }

  function Row6(j: bv8): bv32 {
    if j == 0 then 0x61C69362 else if j == 1 then 0x93AD1061 else if j == 2 then 0x80FDE395 else if j == 3 then 0x72966096
    else if j == 4 then 0xA65C047D else if j == 5 then 0x5437877E else if j == 6 then 0x4767748A else if j == 7 then 0xB50CF789
    else if j == 8 then 0xEB1FCBAD else if j == 9 then 0x197448AE else if j == 10 then 0x0A24BB5A else if j == 11 then 0xF84F3859
    else if j == 12 then 0x2C855CB2 else if j == 13 then 0xDEEEDFB1 else if j == 14 then 0xCDBE2C45 else 0x3FD5AF46
  }

  function Row7(j: bv8): bv32 {
    if j == 0 then 0x7198540D else if j == 1 then 0x83F3D70E else if j == 2 then 0x90A324FA else if j == 3 then 0x62C8A7F9
    else if j == 4 then 0xB602C312 else if j == 5 then 0x44694011 else if j == 6 then 0x5739B3E5 else if j == 7 then 0xA55230E6
    else if j == 8 then 0xFB410CC2 else if j == 9 then 0x092A8FC1 else if j == 10 then 0x1A7A7C35 else if j == 11 then 0xE811FF36
    else if j == 12 then 0x3CDB9BDD else if j == 13 then 0xCEB018DE else if j == 14 then 0xDDE0EB2A else 0x2F8B6829
  }

  function Row8(j: bv8): bv32 {
    if j == 0 then 0x82F63B78 else if j == 1 then 0x709DB87B else if j == 2 then 0x63CD4B8F else if j == 3 then 0x91A6C88C
    else if j == 4 then 0x456CAC67 else if j == 5 then 0xB7072F64 else if j == 6 then 0xA457DC90 else if j == 7 then 0x563C5F93
    else if j == 8 then 0x082F63B7 else if j == 9 then 0xFA44E0B4 else if j == 10 then 0xE9141340 else if j == 11 then 0x1B7F9043
    else if j == 12 then 0xCFB5F4A8 else if j == 13 then 0x3DDE77AB else if j == 14 then 0x2E8E845F else 0xDCE5075C
  }

  function Row9(j: bv8): bv32 {
    if j == 0 then 0x92A8FC17 else if j == 1 then 0x60C37F14 else if j == 2 then 0x73938CE0 else if j == 3 then 0x81F80FE3
    else if j == 4 then 0x55326B08 else if j == 5 then 0xA759E80B else if j == 6 then 0xB4091BFF else if j == 7 then 0x466298FC
    else if j == 8 then 0x1871A4D8 else if j == 9 then 0xEA1A27DB else if j == 10 then 0xF94AD42F else if j == 11 then 0x0B21572C
    else if j == 12 then 0xDFEB33C7 else if j == 13 then 0x2D80B0C4 else if j == 14 then 0x3ED04330 else 0xCCBBC033
  }

  function RowA(j: bv8): bv32 {
    if j == 0 then 0xA24BB5A6 else if j == 1 then 0x502036A5 else if j == 2 then 0x4370C551 else if j == 3 then 0xB11B4652
    else if j == 4 then 0x65D122B9 else if j == 5 then 0x97BAA1BA else if j == 6 then 0x84EA524E else if j == 7 then 0x7681D14D
    else if j == 8 then 0x2892ED69 else if j == 9 then 0xDAF96E6A else if j == 10 then 0xC9A99D9E else if j == 11 then 0x3BC21E9D
    else if j == 12 then 0xEF087A76 else if j == 13 then 0x1D63F975 else if j == 14 then 0x0E330A81 else 0xFC588982
  }

  function RowB(j: bv8): bv32 {
    if j == 0 then 0xB21572C9 else if j == 1 then 0x407EF1CA else if j == 2 then 0x532E023E else if j == 3 then 0xA145813D
    else if j == 4 then 0x758FE5D6 else if j == 5 then 0x87E466D5 else if j == 6 then 0x94B49521 else if j == 7 then 0x66DF1622
    else if j == 8 then 0x38CC2A06 else if j == 9 then 0xCAA7A905 else if j == 10 then 0xD9F75AF1 else if j == 11 then 0x2B9CD9F2
    else if j == 12 then 0xFF56BD19 else if j == 13 then 0x0D3D3E1A else if j == 14 then 0x1E6DCDEE else 0xEC064EED
  }

  function RowC(j: bv8): bv32 {
    if j == 0 then 0xC38D26C4 else if j == 1 then 0x31E6A5C7 else if j == 2 then 0x22B65633 else if j == 3 then 0xD0DDD530
    else if j == 4 then 0x0417B1DB else if j == 5 then 0xF67C32D8 else if j == 6 then 0xE52CC12C else if j == 7 then 0x1747422F
    else if j == 8 then 0x49547E0B else if j == 9 then 0xBB3FFD08 else if j == 10 then 0xA86F0EFC else if j == 11 then 0x5A048DFF
    else if j == 12 then 0x8ECEE914 else if j == 13 then 0x7CA56A17 else if j == 14 then 0x6FF599E3 else 0x9D9E1AE0
  }

  function RowD(j: bv8): bv32 {
    if j == 0 then 0xD3D3E1AB else if j == 1 then 0x21B862A8 else if j == 2 then 0x32E8915C else if j == 3 then 0xC083125F
    else if j == 4 then 0x144976B4 else if j == 5 then 0xE622F5B7 else if j == 6 then 0xF5720643 else if j == 7 then 0x07198540
    else if j == 8 then 0x590AB964 else if j == 9 then 0xAB613A67 else if j == 10 then 0xB831C993 else if j == 11 then 0x4A5A4A90
    else if j == 12 then 0x9E902E7B else if j == 13 then 0x6CFBAD78 else if j == 14 then 0x7FAB5E8C else 0x8DC0DD8F
  }

  function RowE(j: bv8): bv32 {
    if j == 0 then 0xE330A81A else if j == 1 then 0x115B2B19 else if j == 2 then 0x020BD8ED else if j == 3 then 0xF0605BEE
    else if j == 4 then 0x24AA3F05 else if j == 5 then 0xD6C1BC06 else if j == 6 then 0xC5914FF2 else if j == 7 then 0x37FACCF1
    else if j == 8 then 0x69E9F0D5 else if j == 9 then 0x9B8273D6 else if j == 10 then 0x88D28022 else if j == 11 then 0x7AB90321
    else if j == 12 then 0xAE7367CA else if j == 13 then 0x5C18E4C9 else if j == 14 then 0x4F48173D else 0xBD23943E
  }

  function RowF(j: bv8): bv32 {
    if j == 0 then 0xF36E6F75 else if j == 1 then 0x0105EC76 else if j == 2 then 0x12551F82 else if j == 3 then 0xE03E9C81
    else if j == 4 then 0x34F4F86A else if j == 5 then 0xC69F7B69 else if j == 6 then 0xD5CF889D else if j == 7 then 0x27A40B9E
    else if j == 8 then 0x79B737BA else if j == 9 then 0x8BDCB4B9 else if j == 10 then 0x988C474D else if j == 11 then 0x6AE7C44E
    else if j == 12 then 0xBE2DA0A5 else if j == 13 then 0x4C4623A6 else if j == 14 then 0x5F16D052 else 0xAD7D5351
  }

  function TableAt(i: bv8): bv32 {
    if i >> 4 == 0 then Row0(i & 15)
    else if i >> 4 == 1 then Row1(i & 15)
    else if i >> 4 == 2 then Row2(i & 15)
    else if i >> 4 == 3 then Row3(i & 15)
    else if i >> 4 == 4 then Row4(i & 15)
    else if i >> 4 == 5 then Row5(i & 15)
    else if i >> 4 == 6 then Row6(i & 15)
    else if i >> 4 == 7 then Row7(i & 15)
    else if i >> 4 == 8 then Row8(i & 15)
    else if i >> 4 == 9 then Row9(i & 15)
    else if i >> 4 == 10 then RowA(i & 15)
    else if i >> 4 == 11 then RowB(i & 15)
    else if i >> 4 == 12 then RowC(i & 15)
    else if i >> 4 == 13 then RowD(i & 15)
    else if i >> 4 == 14 then RowE(i & 15)
    else RowF(i & 15)
  }

  lemma Row0Derived(i: bv8)
    requires i >> 4 == 0
    ensures Row0(i & 15) == Step8(i as bv32)
  {
  }

  lemma Row1Derived(i: bv8)
    requires i >> 4 == 1
    ensures Row1(i & 15) == Step8(i as bv32)
  {
  }

  lemma Row2Derived(i: bv8)
    requires i >> 4 == 2
    ensures Row2(i & 15) == Step8(i as bv32)
  {
  }

  lemma Row3Derived(i: bv8)
    requires i >> 4 == 3
    ensures Row3(i & 15) == Step8(i as bv32)
  {
  }

  lemma Row4Derived(i: bv8)
    requires i >> 4 == 4
    ensures Row4(i & 15) == Step8(i as bv32)
  {
  }

  lemma Row5Derived(i: bv8)
    requires i >> 4 == 5
    ensures Row5(i & 15) == Step8(i as bv32)
  {
  }

  lemma Row6Derived(i: bv8)
    requires i >> 4 == 6
    ensures Row6(i & 15) == Step8(i as bv32)
  {
  }

  lemma Row7Derived(i: bv8)
    requires i >> 4 == 7
    ensures Row7(i & 15) == Step8(i as bv32)
  {
  }

  lemma Row8Derived(i: bv8)
    requires i >> 4 == 8
    ensures Row8(i & 15) == Step8(i as bv32)
  {
  }

  lemma Row9Derived(i: bv8)
    requires i >> 4 == 9
    ensures Row9(i & 15) == Step8(i as bv32)
  {
  }

  lemma RowADerived(i: bv8)
    requires i >> 4 == 10
    ensures RowA(i & 15) == Step8(i as bv32)
  {
  }

  lemma RowBDerived(i: bv8)
    requires i >> 4 == 11
    ensures RowB(i & 15) == Step8(i as bv32)
  {
  }

  lemma RowCDerived(i: bv8)
    requires i >> 4 == 12
    ensures RowC(i & 15) == Step8(i as bv32)
  {
  }

  lemma RowDDerived(i: bv8)
    requires i >> 4 == 13
    ensures RowD(i & 15) == Step8(i as bv32)
  {
  }

  lemma RowEDerived(i: bv8)
    requires i >> 4 == 14
    ensures RowE(i & 15) == Step8(i as bv32)
  {
  }

  lemma RowFDerived(i: bv8)
    requires i >> 4 == 15
    ensures RowF(i & 15) == Step8(i as bv32)
  {
  }

  /** Every entry of the table is eight shifts of its index. */
  lemma TableDerived(i: bv8)
    ensures TableAt(i) == Step8(i as bv32)
  {
    if i < 128 {
      TableLow(i);
    } else {
      TableHigh(i);
    }
  }

  lemma TableLow(i: bv8)
    requires i < 128
    ensures TableAt(i) == Step8(i as bv32)
  {
    if i >> 4 == 0 { Row0Derived(i); }
    else if i >> 4 == 1 { Row1Derived(i); }
    else if i >> 4 == 2 { Row2Derived(i); }
    else if i >> 4 == 3 { Row3Derived(i); }
    else if i >> 4 == 4 { Row4Derived(i); }
    else if i >> 4 == 5 { Row5Derived(i); }
    else if i >> 4 == 6 { Row6Derived(i); }
    else { assert i >> 4 == 7; Row7Derived(i); }
  }

  lemma TableHigh(i: bv8)
    requires i >= 128
    ensures TableAt(i) == Step8(i as bv32)
  {
    if i >> 4 == 8 { Row8Derived(i); }
    else if i >> 4 == 9 { Row9Derived(i); }
    else if i >> 4 == 10 { RowADerived(i); }
    else if i >> 4 == 11 { RowBDerived(i); }
    else if i >> 4 == 12 { RowCDerived(i); }
    else if i >> 4 == 13 { RowDDerived(i); }
    else if i >> 4 == 14 { RowEDerived(i); }
    else { assert i >> 4 == 15; RowFDerived(i); }
  }

  // ---- The register is linear ----

  function Low(m: bv32): bool {
    m & 1 == 1
  }

  function Half(m: bv32): bv32 {
    m >> 1
  }

  function Feedback(b: bool): bv32 {
    if b then POLY else 0
  }

  lemma StepParts(x: bv32)
    ensures BitStep(x) == Xor(Half(x), Feedback(Low(x)))
  {
  }

  lemma HalfXor(x: bv32, y: bv32)
    ensures Half(Xor(x, y)) == Xor(Half(x), Half(y)) && Low(Xor(x, y)) == (Low(x) != Low(y))
  {
  }

  lemma FeedbackXor(c: bool, d: bool)
    ensures Feedback(c != d) == Xor(Feedback(c), Feedback(d))
  {
  }

  lemma XorAssocAt(x: bv32, y: bv32, z: bv32)
    ensures Xor(Xor(x, y), z) == Xor(x, Xor(y, z))
  {
  }

  lemma XorCommutes(x: bv32, y: bv32)
    ensures Xor(x, y) == Xor(y, x)
  {
  }

  lemma XorMedialAt(x: bv32, y: bv32, u: bv32, v: bv32)
    ensures MedialAt(Xor, x, y, u, v)
  {
    XorAssocAt(x, u, Xor(y, v));
    XorAssocAt(u, y, v);
    XorCommutes(u, y);
    XorAssocAt(y, u, v);
    XorAssocAt(x, y, Xor(u, v));
    MedialFrom(Xor, x, y, u, v);
  }

  lemma XorMedial()
    ensures Medial(Xor)
  {
    forall x, y, u, v ensures MedialAt(Xor, x, y, u, v) {
      XorMedialAt(x, y, u, v);
    }
  }

  lemma StepLinearAt(x: bv32, y: bv32)
    ensures LinearAt(BitStep, Xor, x, y)
  {
    StepParts(x);
    StepParts(y);
    StepParts(Xor(x, y));
    HalfXor(x, y);
    FeedbackXor(Low(x), Low(y));
    XorMedialAt(Half(x), Half(y), Feedback(Low(x)), Feedback(Low(y)));
    LinearFrom(BitStep, Xor, Half, Low, Feedback, x, y);
  }

  lemma StepLinear()
    ensures Linear(BitStep, Xor)
  {
    forall x, y ensures LinearAt(BitStep, Xor, x, y) {
      StepLinearAt(x, y);
    }
  }

  lemma BitsLinear()
    ensures BitLinear(Xor, BitOf)
  {
    forall c, d ensures BitLinearAt(Xor, BitOf, c, d) {
      assert BitOf(c) ^ BitOf(d) == BitOf(c != d);
    }
  }

  lemma BitStepInjective(a: bv32, b: bv32)
    ensures BitStep(a) == BitStep(b) <==> a == b
  {
  }

  lemma StepInjective()
    ensures Injective(BitStep)
  {
    forall x, y ensures BitStep(x) == BitStep(y) ==> x == y {
      BitStepInjective(x, y);
    }
  }

  lemma XorCancels(x: bv32, y: bv32, z: bv32)
    ensures x ^ z == y ^ z ==> x == y
  {
  }

  lemma AddCancels()
    ensures Cancels(Xor)
  {
    forall x, y, z ensures Xor(x, z) == Xor(y, z) ==> x == y {
      XorCancels(x, y, z);
    }
  }

  lemma RegisterConcat(s: bv32, a: seq<bool>, b: seq<bool>)
    ensures Register(s, a + b) == Register(Register(s, a), b)
  {
    FeedConcat(BitStep, Xor, BitOf, s, a, b);
  }

  lemma RegisterLinear(s: bv32, t: bv32, a: seq<bool>, b: seq<bool>)
    requires |a| == |b|
    ensures Xor(Register(s, a), Register(t, b)) == Register(Xor(s, t), XorBits(a, b))
  {
    StepLinear();
    XorMedial();
    BitsLinear();
    FeedLinear(BitStep, Xor, BitOf, s, t, a, b);
  }

  lemma RegisterInjective(s: bv32, t: bv32, bits: seq<bool>)
    ensures Register(s, bits) == Register(t, bits) <==> s == t
  {
    StepInjective();
    AddCancels();
    FeedInjective(BitStep, Xor, BitOf, s, t, bits);
  }

  // ---- The table-driven loop ----

  lemma XorAssoc()
    ensures Assoc(Xor)
  {
    forall x, y, z ensures Xor(Xor(x, y), z) == Xor(x, Xor(y, z)) {
      XorAssocAt(x, y, z);
    }
  }

  lemma ShedsAt(m: bv32)
    ensures BitStep(m) == Xor(BitStep(BitOf(Low(m))), Half(m))
  {
  }

  lemma StepSheds()
    ensures Sheds(BitStep, Xor, BitOf, Low, Half)
  {
    forall m ensures BitStep(m) == Xor(BitStep(BitOf(Low(m))), Half(m)) {
      ShedsAt(m);
    }
  }

  lemma FeedWordOf(s: bv32, m: bv32)
    ensures Xor(Register(s, WordBits(Low, Half, m, 8)), Times(Half, m, 8)) == Times(BitStep, Xor(s, m), 8)
  {
    StepLinear();
    XorAssoc();
    StepSheds();
    FeedWord(BitStep, Xor, BitOf, Low, Half, s, m, 8);
  }

  lemma ByteBits(b: Byte, m: bv32, m2: bv32, m4: bv32, m6: bv32)
    requires m == b as bv32 && m2 == (m >> 1) >> 1 && m4 == (m2 >> 1) >> 1 && m6 == (m4 >> 1) >> 1
    ensures (m & 1 == 1 <==> b & 1 == 1) && ((m >> 1) & 1 == 1 <==> b & 2 == 2)
    ensures (m2 & 1 == 1 <==> b & 4 == 4) && ((m2 >> 1) & 1 == 1 <==> b & 8 == 8)
    ensures (m4 & 1 == 1 <==> b & 16 == 16) && ((m4 >> 1) & 1 == 1 <==> b & 32 == 32)
    ensures (m6 & 1 == 1 <==> b & 64 == 64) && ((m6 >> 1) & 1 == 1 <==> b & 128 == 128)
    ensures (m6 >> 1) >> 1 == 0
  {
  }

  lemma ByteAsWord(b: Byte)
    ensures WordBits(Low, Half, b as bv32, 8) == BitsOfByte(b)
    ensures Times(Half, b as bv32, 8) == 0
  {
    var m := b as bv32;
    var m2 := Half(Half(m));
    var m4 := Half(Half(m2));
    var m6 := Half(Half(m4));
    EightBits(Low, Half, m);
    EightTimes(Half, m);
    ByteBits(b, m, m2, m4, m6);
  }

  lemma XorZero(x: bv32)
    ensures Xor(x, 0) == x
  {
  }

  lemma FeedByte(s: bv32, b: Byte)
    ensures Register(s, BitsOfByte(b)) == Step8(Xor(s, b as bv32))
  {
    ByteAsWord(b);
    FeedWordOf(s, b as bv32);
    XorZero(Register(s, BitsOfByte(b)));
    EightTimes(BitStep, Xor(s, b as bv32));
  }

  lemma Step8Linear(a: bv32, b: bv32)
    ensures Step8(Xor(a, b)) == Xor(Step8(a), Step8(b))
  {
    StepLinear();
    TimesLinear(BitStep, Xor, a, b, 8);
    EightTimes(BitStep, a);
    EightTimes(BitStep, b);
    EightTimes(BitStep, Xor(a, b));
  }

  function LowByte(x: bv32): bv32 {
    x & 0xFF
  }

  function HighBytes(x: bv32): bv32 {
    x & 0xFFFF_FF00
  }

  function Shift8(x: bv32): bv32 {
    x >> 8
  }

  lemma HighPart(x: bv32)
    ensures Step8(HighBytes(x)) == Shift8(x)
  {
  }

  lemma SplitWord(x: bv32)
    ensures Xor(LowByte(x), HighBytes(x)) == x
  {
  }

  lemma Step8Split(x: bv32)
    ensures Step8(x) == Xor(Step8(LowByte(x)), Shift8(x))
  {
    SplitWord(x);
    Step8Linear(LowByte(x), HighBytes(x));
    HighPart(x);
  }

  function Index(crc: bv32, b: Byte): bv8 {
    ((crc ^ (b as bv32)) & 0xFF) as bv8
  }

  lemma IndexValue(crc: bv32, b: Byte)
    ensures Index(crc, b) as bv32 == LowByte(Xor(crc, b as bv32))
    ensures Shift8(Xor(crc, b as bv32)) == crc >> 8
  {
  }

  /** One turn of the loop is eight bit steps. */
  lemma TableStep(crc: bv32, b: Byte)
    ensures Xor(TableAt(Index(crc, b)), crc >> 8) == Register(crc, BitsOfByte(b))
  {
    FeedByte(crc, b);
    Step8Split(Xor(crc, b as bv32));
    IndexValue(crc, b);
    TableDerived(Index(crc, b));
  }

  lemma {:induction false} BitsConcat(a: Bytes, b: Bytes)
    ensures Bits(a + b) == Bits(a) + Bits(b)
  {
    if a == [] {
      assert a + b == b;
    } else {
      assert (a + b)[1..] == a[1..] + b;
      BitsConcat(a[1..], b);
    }
  }

  lemma PrefixStep(data: Bytes, i: nat)
    requires i < |data|
    ensures Register(ALL_ONES, Bits(data[..i + 1])) == Register(Register(ALL_ONES, Bits(data[..i])), BitsOfByte(data[i]))
  {
    assert data[..i + 1] == data[..i] + [data[i]];
    BitsConcat(data[..i], [data[i]]);
    assert Bits([data[i]]) == BitsOfByte(data[i]);
    RegisterConcat(ALL_ONES, Bits(data[..i]), BitsOfByte(data[i]));
  }

  /** One turn of the loop, as the engine writes it. */
  function Turn(crc: bv32, b: Byte): bv32 {
    TableAt(((crc ^ (b as bv32)) & 0xFF) as bv8) ^ (crc >> 8)
  }

  lemma TurnFeeds(data: Bytes, i: nat, crc: bv32)
    requires i < |data| && crc == Register(ALL_ONES, Bits(data[..i]))
    ensures Turn(crc, data[i]) == Register(ALL_ONES, Bits(data[..i + 1]))
  {
    TableStep(crc, data[i]);
    PrefixStep(data, i);
  }

  /** The engine's loop computes the bit-serial checksum of the whole buffer. */
  method ComputeCrc32(data: Bytes) returns (r: bv32)
    ensures r == Checksum(data)
  {
    var crc := ALL_ONES;
    for i := 0 to |data|
      invariant crc == Register(ALL_ONES, Bits(data[..i]))
    {
      TurnFeeds(data, i, crc);
      crc := Turn(crc, data[i]);
    }
    assert data[..|data|] == data;
    r := crc ^ ALL_ONES;
  }

  // ---- The standard's constants ----

  /** The bytes of a checksum as they follow a message, least significant first. */
  function CrcBytes(x: bv32): (s: Bytes)
    ensures |s| == 4
  {
    [(x & 0xFF) as bv8, ((x >> 8) & 0xFF) as bv8, ((x >> 16) & 0xFF) as bv8, ((x >> 24) & 0xFF) as bv8]
  }

  lemma LowCancels(c: bv32, left: bv32)
    ensures ((c ^ left) ^ ((left ^ ALL_ONES) & 0xFF)) & 0xFF == (c ^ 0xFF) & 0xFF
  {
  }

  lemma ShiftXor(c: bv32, left: bv32)
    ensures Shift8(Xor(c, left)) == Xor(Shift8(c), Shift8(left))
  {
  }

  lemma ByteBack(w: bv32)
    ensures ((w & 0xFF) as bv8) as bv32 == w & 0xFF
  {
  }

  lemma IndexCancels(c: bv32, left: bv32, b: Byte)
    requires b == ((left ^ ALL_ONES) & 0xFF) as bv8
    ensures Index(Xor(c, left), b) == ((c ^ 0xFF) & 0xFF) as bv8
    ensures Shift8(Xor(c, left)) == Xor(Shift8(c), Shift8(left))
  {
    ByteBack(left ^ ALL_ONES);
    LowCancels(c, left);
    ShiftXor(c, left);
  }

  function Turned(s: bv32, b: Byte): bv32 {
    TurnWith(TableAt, Xor, Index, Shift8, s, b)
  }

  lemma TurnCancels(c: bv32, left: bv32, b: Byte, i: bv8, k: bv32)
    requires Index(Xor(c, left), b) == i && Shift8(Xor(c, left)) == Xor(Shift8(c), Shift8(left)) && Xor(TableAt(i), Shift8(c)) == k
    ensures Turned(Xor(c, left), b) == Xor(k, Shift8(left))
  {
    XorAssocAt(TableAt(i), Shift8(c), Shift8(left));
    TurnSheds(TableAt, Xor, Index, Shift8, c, left, b, i, k);
  }

  /** The constants that the four turns over a checksum go through. */
  lemma TwoEntries()
    ensures Xor(TableAt(0xFF), Shift8(0)) == 0xAD7D_5351 && Xor(TableAt(0xAE), Shift8(0xAD7D_5351)) == 0x0E9E_77D2
  {
  }

  lemma TwoMoreEntries()
    ensures Xor(TableAt(0x2D), Shift8(0x0E9E_77D2)) == 0x9F9B_5C7A && Xor(TableAt(0x85), Shift8(0x9F9B_5C7A)) == 0xB798_B438
  {
  }

  lemma FirstTurn(s: bv32, b: Byte)
    requires b == ((s ^ ALL_ONES) & 0xFF) as bv8
    ensures Turned(s, b) == Xor(0xAD7D_5351, Shift8(s))
  {
    IndexCancels(0, s, b);
    TwoEntries();
    assert Xor(0, s) == s;
    TurnCancels(0, s, b, 0xFF, 0xAD7D_5351);
  }

  lemma SecondTurn(left: bv32, b: Byte)
    requires b == ((left ^ ALL_ONES) & 0xFF) as bv8
    ensures Turned(Xor(0xAD7D_5351, left), b) == Xor(0x0E9E_77D2, Shift8(left))
  {
    IndexCancels(0xAD7D_5351, left, b);
    TwoEntries();
    TurnCancels(0xAD7D_5351, left, b, 0xAE, 0x0E9E_77D2);
  }

  lemma ThirdTurn(left: bv32, b: Byte)
    requires b == ((left ^ ALL_ONES) & 0xFF) as bv8
    ensures Turned(Xor(0x0E9E_77D2, left), b) == Xor(0x9F9B_5C7A, Shift8(left))
  {
    IndexCancels(0x0E9E_77D2, left, b);
    TwoMoreEntries();
    TurnCancels(0x0E9E_77D2, left, b, 0x2D, 0x9F9B_5C7A);
  }

  lemma FourthTurn(left: bv32, b: Byte)
    requires b == ((left ^ ALL_ONES) & 0xFF) as bv8
    ensures Turned(Xor(0x9F9B_5C7A, left), b) == Xor(0xB798_B438, Shift8(left))
  {
    IndexCancels(0x9F9B_5C7A, left, b);
    TwoMoreEntries();
    TurnCancels(0x9F9B_5C7A, left, b, 0x85, 0xB798_B438);
  }

  lemma ChecksumBytes(s: bv32)
    ensures var q := CrcBytes(s ^ ALL_ONES);
            && q[0] == ((s ^ ALL_ONES) & 0xFF) as bv8 && q[1] == ((Shift8(s) ^ ALL_ONES) & 0xFF) as bv8
            && q[2] == ((Shift8(Shift8(s)) ^ ALL_ONES) & 0xFF) as bv8 && q[3] == ((Shift8(Shift8(Shift8(s))) ^ ALL_ONES) & 0xFF) as bv8
    ensures Shift8(Shift8(Shift8(Shift8(s)))) == 0
  {
  }

  lemma FourTurns<S, B>(turn: (S, B) -> S, s: S, q: seq<B>, s1: S, s2: S, s3: S, s4: S)
    requires |q| == 4 && turn(s, q[0]) == s1 && turn(s1, q[1]) == s2 && turn(s2, q[2]) == s3 && turn(s3, q[3]) == s4
    ensures turn(turn(turn(turn(s, q[0]), q[1]), q[2]), q[3]) == s4
  {
  }

  lemma TurnsCancel(s: bv32)
    ensures var q := CrcBytes(s ^ ALL_ONES); Turned(Turned(Turned(Turned(s, q[0]), q[1]), q[2]), q[3]) == 0xB798_B438
  {
    var q := CrcBytes(s ^ ALL_ONES);
    ChecksumBytes(s);
    FirstTurn(s, q[0]);
    SecondTurn(Shift8(s), q[1]);
    ThirdTurn(Shift8(Shift8(s)), q[2]);
    FourthTurn(Shift8(Shift8(Shift8(s))), q[3]);
    XorZero(0xB798_B438);
    FourTurns(Turned, s, q, Xor(0xAD7D_5351, Shift8(s)), Xor(0x0E9E_77D2, Shift8(Shift8(s))), Xor(0x9F9B_5C7A, Shift8(Shift8(Shift8(s)))), 0xB798_B438);
  }

  lemma TurnsFeed(data: Bytes, i: nat)
    requires i < |data|
    ensures Register(ALL_ONES, Bits(data[..i + 1])) == Turned(Register(ALL_ONES, Bits(data[..i])), data[i])
  {
    TurnFeeds(data, i, Register(ALL_ONES, Bits(data[..i])));
  }

  /** A message of any length followed by its checksum leaves the register at the residue of the
      standard. */
  lemma Residue(data: Bytes)
    ensures Register(ALL_ONES, Bits(data + CrcBytes(Checksum(data)))) == 0xB798_B438
  {
    var q := CrcBytes(Checksum(data));
    var all, n := data + q, |data|;
    assert all[..n] == data && all[..n + 4] == all;
    TurnsFeed(all, n);
    TurnsFeed(all, n + 1);
    TurnsFeed(all, n + 2);
    TurnsFeed(all, n + 3);
    TurnsCancel(Register(ALL_ONES, Bits(data)));
  }

  /** The digits one to nine, in ASCII. */
  const DIGITS: Bytes := [0x31, 0x32, 0x33, 0x34, 0x35, 0x36, 0x37, 0x38, 0x39]

  lemma FirstDigitsTurn()
    ensures Turned(0xFFFF_FFFF, 0x31) == 0x6F0A_661C
    ensures Turned(0x6F0A_661C, 0x32) == 0x8CAA_3B9F
    ensures Turned(0x8CAA_3B9F, 0x33) == 0xEF84_D04D
  {
  }

  lemma MiddleDigitsTurn()
    ensures Turned(0xEF84_D04D, 0x34) == 0x09C5_0B11
    ensures Turned(0x09C5_0B11, 0x35) == 0xE72E_DCCA
    ensures Turned(0xE72E_DCCA, 0x36) == 0xBECA_8E79
  {
  }

  lemma LastDigitsTurn()
    ensures Turned(0xBECA_8E79, 0x37) == 0xEDBD_6815
    ensures Turned(0xEDBD_6815, 0x38) == 0x9F78_7F65
    ensures Turned(0x9F78_7F65, 0x39) == 0x1CF9_6D7C
  {
  }

  lemma DigitFeeds(d: Bytes, i: nat, s: bv32, b: Byte, t: bv32)
    requires i < |d| && Register(ALL_ONES, Bits(d[..i])) == s && d[i] == b && Turned(s, b) == t
    ensures Register(ALL_ONES, Bits(d[..i + 1])) == t
  {
    TurnsFeed(d, i);
  }

  lemma FirstDigits(d: Bytes)
    requires |d| == 9 && d[0] == 0x31 && d[1] == 0x32 && d[2] == 0x33 && Register(ALL_ONES, Bits(d[..0])) == 0xFFFF_FFFF
    ensures Register(ALL_ONES, Bits(d[..3])) == 0xEF84_D04D
  {
    FirstDigitsTurn();
    DigitFeeds(d, 0, 0xFFFF_FFFF, 0x31, 0x6F0A_661C);
    DigitFeeds(d, 1, 0x6F0A_661C, 0x32, 0x8CAA_3B9F);
    DigitFeeds(d, 2, 0x8CAA_3B9F, 0x33, 0xEF84_D04D);
  }

  lemma MiddleDigits(d: Bytes)
    requires |d| == 9 && d[3] == 0x34 && d[4] == 0x35 && d[5] == 0x36 && Register(ALL_ONES, Bits(d[..3])) == 0xEF84_D04D
    ensures Register(ALL_ONES, Bits(d[..6])) == 0xBECA_8E79
  {
    MiddleDigitsTurn();
    DigitFeeds(d, 3, 0xEF84_D04D, 0x34, 0x09C5_0B11);
    DigitFeeds(d, 4, 0x09C5_0B11, 0x35, 0xE72E_DCCA);
    DigitFeeds(d, 5, 0xE72E_DCCA, 0x36, 0xBECA_8E79);
  }

  lemma LastDigits(d: Bytes)
    requires |d| == 9 && d[6] == 0x37 && d[7] == 0x38 && d[8] == 0x39 && Register(ALL_ONES, Bits(d[..6])) == 0xBECA_8E79
    ensures Register(ALL_ONES, Bits(d[..9])) == 0x1CF9_6D7C
  {
    LastDigitsTurn();
    DigitFeeds(d, 6, 0xBECA_8E79, 0x37, 0xEDBD_6815);
    DigitFeeds(d, 7, 0xEDBD_6815, 0x38, 0x9F78_7F65);
    DigitFeeds(d, 8, 0x9F78_7F65, 0x39, 0x1CF9_6D7C);
  }

  /** The checksum of the digits one to nine is the check value of the standard. */
  lemma CheckValue()
    ensures Checksum(DIGITS) == 0xE306_9283
  {
    var d := DIGITS;
    assert d[..0] == [] && d[..9] == d;
    FirstDigits(d);
    MiddleDigits(d);
    LastDigits(d);
  }

  // ---- Error detection ----

  /** The power of two at bit `k`. */
  function Bound(k: nat): bv32 {
    if k < 16 then LowBound(k) else if k < 32 then LowBound(k - 16) << 16 else 0
  }

  function LowBound(k: nat): bv32
    requires k < 16
  {
    if k == 0 then 0x1 else if k == 1 then 0x2 else if k == 2 then 0x4 else if k == 3 then 0x8
    else if k == 4 then 0x10 else if k == 5 then 0x20 else if k == 6 then 0x40 else if k == 7 then 0x80
    else if k == 8 then 0x100 else if k == 9 then 0x200 else if k == 10 then 0x400 else if k == 11 then 0x800
    else if k == 12 then 0x1000 else if k == 13 then 0x2000 else if k == 14 then 0x4000 else 0x8000
  }

  predicate AtLeast(x: bv32, t: bv32) {
    x >= t
  }

  lemma BoundHalves(k: nat)
    requires k < 31
    ensures Half(Bound(k + 1)) == Bound(k) && !Low(Bound(k + 1))
  {
  }

  lemma StaysAbove(x: bv32, t: bv32, b: bool)
    requires AtLeast(x, t) && !Low(t)
    ensures AtLeast(BitStep(Xor(x, BitOf(b))), Half(t))
  {
  }

  lemma Relaxes(k: nat, x: bv32, b: bool)
    requires k < 31
    ensures RelaxAt(BitStep, Xor, BitOf, AtLeast, Bound, k, x, b)
  {
    BoundHalves(k);
    if AtLeast(x, Bound(k + 1)) {
      StaysAbove(x, Bound(k + 1), b);
    }
    RelaxFrom(BitStep, Xor, BitOf, AtLeast, Bound, Half, k, x, b);
  }

  lemma BoundPositive(k: nat, x: bv32)
    requires k <= 31 && AtLeast(x, Bound(k))
    ensures x != 0
  {
  }

  /** A register with its top bit set does not become zero before 31 more bits are in. */
  lemma StaysNonZero(x: bv32, bits: seq<bool>)
    requires AtLeast(x, Bound(31)) && |bits| <= 31
    ensures Register(x, bits) != 0
  {
    forall k: nat, y, b | k < 31 ensures RelaxAt(BitStep, Xor, BitOf, AtLeast, Bound, k, y, b) {
      Relaxes(k, y, b);
    }
    FeedAbove(BitStep, Xor, BitOf, AtLeast, Bound, x, 31, bits);
    BoundPositive(31 - |bits|, Register(x, bits));
  }

  lemma {:induction false} BurstNonZero(d: seq<bool>)
    requires |d| <= 32 && exists i :: 0 <= i < |d| && d[i]
    ensures Register(0, d) != 0
    decreases |d|
  {
    FirstBit(d[0]);
    if d[0] {
      assert AtLeast(POLY, Bound(31));
      StaysNonZero(POLY, d[1..]);
    } else {
      var i :| 0 <= i < |d| && d[i];
      assert d[1..][i - 1];
      BurstNonZero(d[1..]);
    }
  }

  lemma FirstBit(b: bool)
    ensures BitStep(Xor(0, BitOf(b))) == if b then POLY else 0
  {
  }

  lemma XorSelf(x: bv32)
    ensures Xor(x, x) == 0
  {
  }

  /** Any error confined to 32 consecutive bits of a message, however long, changes the register. */
  lemma BurstDetected(s: bv32, before: seq<bool>, w: seq<bool>, w': seq<bool>, after: seq<bool>)
    requires |w| == |w'| <= 32 && w != w'
    ensures Register(s, before + w + after) != Register(s, before + w' + after)
  {
    var t := Register(s, before);
    RegisterConcat(s, before, w);
    RegisterConcat(s, before, w');
    RegisterConcat(s, before + w, after);
    RegisterConcat(s, before + w', after);
    RegisterInjective(Register(t, w), Register(t, w'), after);
    WordsDiffer(t, w, w');
  }

  lemma WordsDiffer(t: bv32, w: seq<bool>, w': seq<bool>)
    requires |w| == |w'| <= 32 && w != w'
    ensures Register(t, w) != Register(t, w')
  {
    var i :| 0 <= i < |w| && w[i] != w'[i];
    assert XorBits(w, w')[i];
    BurstNonZero(XorBits(w, w'));
    RegisterLinear(t, t, w, w');
    XorSelf(t);
    XorDiffers(Register(t, w), Register(t, w'));
  }

  lemma XorDiffers(x: bv32, y: bv32)
    requires Xor(x, y) != 0
    ensures x != y
  {
  }

  lemma ByteBitsInjective(a: Byte, b: Byte)
    ensures BitsOfByte(a) == BitsOfByte(b) ==> a == b
  {
    var x, y := BitsOfByte(a), BitsOfByte(b);
    if x == y {
      assert x[0] == y[0] && x[1] == y[1] && x[2] == y[2] && x[3] == y[3];
      assert x[4] == y[4] && x[5] == y[5] && x[6] == y[6] && x[7] == y[7];
    }
  }

  lemma {:induction false} BitsInjective(a: Bytes, b: Bytes)
    requires |a| == |b| && Bits(a) == Bits(b)
    ensures a == b
  {
    if a != [] {
      assert BitsOfByte(a[0]) == Bits(a)[..8] == Bits(b)[..8] == BitsOfByte(b[0]);
      assert Bits(a[1..]) == Bits(a)[8..] == Bits(b)[8..] == Bits(b[1..]);
      ByteBitsInjective(a[0], b[0]);
      BitsInjective(a[1..], b[1..]);
    }
  }

  /** Two buffers of equal length that differ only within four consecutive bytes have
      different checksums. */
  lemma FourBytesDetected(a: Bytes, b: Bytes, from: nat, to: nat)
    requires |a| == |b| && from <= to <= |a| && to <= from + 4
    requires a[..from] == b[..from] && a[to..] == b[to..] && a != b
    ensures Checksum(a) != Checksum(b)
  {
    var u, w, v := a[..from], a[from..to], a[to..];
    var w' := b[from..to];
    assert a == u + w + v && b == u + w' + v;
    BitsConcat(u + w, v);
    BitsConcat(u, w);
    BitsConcat(u + w', v);
    BitsConcat(u, w');
    if Bits(w) == Bits(w') {
      BitsInjective(w, w');
    }
    BurstDetected(ALL_ONES, Bits(u), Bits(w), Bits(w'), Bits(v));
    XorCancel(Register(ALL_ONES, Bits(a)), Register(ALL_ONES, Bits(b)));
  }

  lemma XorCancel(x: bv32, y: bv32)
    ensures x ^ ALL_ONES == y ^ ALL_ONES <==> x == y
  {
  }
}
