/** The 24 bytes of a record header: the rsn in eight bytes, the dmaster in four, four
    reserved ones, the flags in four, and four bytes of padding. */
module RecordHeader {
  import opened Ltdb
  import opened PacketStream

  const LTDB_HEADER := 24

  /** n in k bytes, the lowest first. */
  function LittleEndian(n: nat, k: nat): (b: Bytes)
    ensures |b| == k
  {
    if k == 0 then [] else [(n % 0x100) as byte] + LittleEndian(n / 0x100, k - 1)
  }

  function One(b: bool): byte { if b then 1 else 0 }

  function FlagBytes(f: Flags): Bytes {
    [0, 0, One(f.migrated) + 2 * One(f.vacuum) + 4 * One(f.automatic),
     One(f.deleg) + 2 * One(f.ro) + 4 * One(f.revoking) + 8 * One(f.complete)]
  }

  predicate HeaderFits(h: Header, reserved: nat, padding: nat) {
    0 <= h.rsn < 0x1_0000_0000_0000_0000 && h.dmaster < 0x1_0000_0000 && reserved < 0x1_0000_0000
    && padding < 0x1_0000_0000
  }

  function HeaderBytes(h: Header, reserved: nat, padding: nat): (b: Bytes)
    requires HeaderFits(h, reserved, padding)
    ensures |b| == LTDB_HEADER
  {
    LittleEndian(h.rsn, 8) + LittleEndian(h.dmaster, 4) + LittleEndian(reserved, 4) + FlagBytes(h.flags)
    + LittleEndian(padding, 4)
  }

  predicate Bit(b: byte, value: byte)
    requires value > 0
  {
    b / value % 2 == 1
  }

  /** The header at the front of a record, word by word. */
  function HeaderOf(b: Bytes): (h: Header)
    requires |b| >= LTDB_HEADER
  {
    Header(Size(b[0..4]) + 0x1_0000_0000 * Size(b[4..8]), Size(b[8..12]),
           Flags(Bit(b[18], 1), Bit(b[18], 2), Bit(b[18], 4),
                 Bit(b[19], 1), Bit(b[19], 2), Bit(b[19], 4), Bit(b[19], 8)))
  }

  lemma EightBytes(n: nat)
    ensures var b := LittleEndian(n, 8);
            && b[..4] == LittleEndian(n % 0x1_0000_0000, 4)
            && b[4..] == LittleEndian(n / 0x1_0000_0000, 4)
  {
    var q1 := n / 0x100;
    var q2 := q1 / 0x100;
    var q3 := q2 / 0x100;
    var q4 := q3 / 0x100;
    assert q4 == n / 0x1_0000_0000;
    var b := LittleEndian(n, 8);
    FirstFour(n, 4);
    FirstFour(n % 0x1_0000_0000, 0);
    assert b[4..] == LittleEndian(q4, 4);
  }

  lemma FirstFour(n: nat, k: nat)
    ensures var b := LittleEndian(n, k + 4); var q1 := n / 0x100; var q2 := q1 / 0x100; var q3 := q2 / 0x100;
            b == [(n % 0x100) as byte, (q1 % 0x100) as byte, (q2 % 0x100) as byte, (q3 % 0x100) as byte]
                 + LittleEndian(q3 / 0x100, k)
  {
    var q1 := n / 0x100;
    var q2 := q1 / 0x100;
    var q3 := q2 / 0x100;
    assert LittleEndian(n, k + 4) == [(n % 0x100) as byte] + LittleEndian(q1, k + 3);
    assert LittleEndian(q1, k + 3) == [(q1 % 0x100) as byte] + LittleEndian(q2, k + 2);
    assert LittleEndian(q2, k + 2) == [(q2 % 0x100) as byte] + LittleEndian(q3, k + 1);
    assert LittleEndian(q3, k + 1) == [(q3 % 0x100) as byte] + LittleEndian(q3 / 0x100, k);
  }

  lemma FourBytes(n: nat)
    requires n < 0x1_0000_0000
    ensures Size(LittleEndian(n, 4)) == n
  {
    FirstFour(n, 0);
  }

  /** The words of packets and buffers are written the same way. */
  lemma WordIsLittleEndian(n: nat)
    requires n < 0x1_0000_0000
    ensures SizeWord(n) == LittleEndian(n, 4)
  {
    FirstFour(n, 0);
  }

  lemma FlagsReadBack(f: Flags)
    ensures var b := FlagBytes(f);
            Flags(Bit(b[2], 1), Bit(b[2], 2), Bit(b[2], 4), Bit(b[3], 1), Bit(b[3], 2), Bit(b[3], 4), Bit(b[3], 8)) == f
  {
  }

  /** What is written into a header is read back. */
  lemma HeaderReadBack(h: Header, reserved: nat, padding: nat)
    requires HeaderFits(h, reserved, padding)
    ensures HeaderOf(HeaderBytes(h, reserved, padding)) == h
  {
    var b := HeaderBytes(h, reserved, padding);
    EightBytes(h.rsn);
    FourBytes(h.rsn % 0x1_0000_0000);
    FourBytes(h.rsn / 0x1_0000_0000);
    FourBytes(h.dmaster);
    FlagsReadBack(h.flags);
    assert b[0..4] == LittleEndian(h.rsn, 8)[..4] && b[4..8] == LittleEndian(h.rsn, 8)[4..];
    assert b[8..12] == LittleEndian(h.dmaster, 4);
    assert b[16..20] == FlagBytes(h.flags) && b[18] == b[16..20][2] && b[19] == b[16..20][3];
  }
}
