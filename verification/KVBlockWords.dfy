/** The 64-bit words of remote memory: KVBlocks, packed from a 12-bit fingerprint, an item
    address, a free bit and a lock bit, and global addresses, packed from a server and an offset. */
module KVBlockWords {

  type Word = bv64

  const FP_LIMIT: Word := 0x1000          // a fingerprint field has twelve bits
  const ADDR_LIMIT: Word := 0x4_0000_0000_0000  // an address has fifty bits
  const SAFE_FP: Word := 0x100            // fingerprints below this survive packing
  const SAFE_ADDR: Word := 0x4000_0000_0000     // addresses below this survive packing

  function GetFp(raw: Word): Word { raw >> 52 }
  function GetAddr(raw: Word): Word { (raw & 0x000F_FFFF_FFFF_FFFF) >> 2 }
  predicate IsFree(raw: Word) { raw & 2 != 0 }
  predicate IsLocked(raw: Word) { raw & 1 != 0 }

  function Bit(b: bool): Word { if b then 1 else 0 }

  function SetFp(raw: Word, fp: Word): Word { (raw & 0x000F_FFFF_FFFF_FFFF) | (fp << 52) }

  /** The masks of this setter have fifteen digits: it clears the four top bits of the fingerprint
      and keeps the four top bits of the old address. */
  function SetAddr(raw: Word, addr: Word): Word {
    (raw & 0x0FFF_0000_0000_0003) | ((addr << 2) & 0x0000_FFFF_FFFF_FFFC)
  }

  function SetFree(raw: Word, free: bool): Word { (raw & 0xFFFF_FFFF_FFFF_FFFD) | (Bit(free) << 1) }
  function SetLocked(raw: Word, locked: bool): Word { (raw & 0xFFFF_FFFF_FFFF_FFFE) | Bit(locked) }

  function Pack(fp: Word, addr: Word, free: bool, locked: bool): Word {
    SetLocked(SetFree(SetAddr(SetFp(0, fp), addr), free), locked)
  }

  /** A word from its parts, before the flags. */
  function Body(fp: Word, addr: Word): Word { SetAddr(SetFp(0, fp), addr) }

  lemma BodyFp(fp: Word, addr: Word)
    requires fp < 0x1000
    ensures GetFp(Body(fp, addr)) == fp & 0xFF
  {
  }

  lemma BodyAddr(fp: Word, addr: Word)
    requires addr < 0x4_0000_0000_0000
    ensures GetAddr(Body(fp, addr)) == addr & 0x3FFF_FFFF_FFFF
  {
  }

  lemma FlagsKeepBody(raw: Word, free: bool, locked: bool)
    ensures var w := SetLocked(SetFree(raw, free), locked);
      && (IsFree(w) <==> free) && (IsLocked(w) <==> locked)
      && GetFp(w) == GetFp(raw) && GetAddr(w) == GetAddr(raw)
  {
    if free {
      FlagsOf(raw, 1, Bit(locked));
    } else {
      FlagsOf(raw, 0, Bit(locked));
    }
  }

  lemma FlagsOf(raw: Word, f: Word, l: Word)
    requires f < 2 && l < 2
    ensures var w := (((raw & 0xFFFF_FFFF_FFFF_FFFD) | (f << 1)) & 0xFFFF_FFFF_FFFF_FFFE) | l;
      && w & 2 == f << 1 && w & 1 == l
      && w >> 52 == raw >> 52
      && (w & 0x000F_FFFF_FFFF_FFFF) >> 2 == (raw & 0x000F_FFFF_FFFF_FFFF) >> 2
  {
  }

  lemma LowBits(fp: Word, addr: Word)
    requires fp < 0x1000 && addr < 0x4_0000_0000_0000
    ensures fp & 0xFF == fp <==> fp < 0x100
    ensures addr & 0x3FFF_FFFF_FFFF == addr <==> addr < 0x4000_0000_0000
  {
  }

  /** Packing then unpacking gives the flags back always, and fingerprint and address exactly when
      the fingerprint has eight bits and the address forty-six. */
  lemma PackRoundTrip(fp: Word, addr: Word, free: bool, locked: bool)
    requires fp < FP_LIMIT && addr < ADDR_LIMIT
    ensures var raw := Pack(fp, addr, free, locked);
      && (IsFree(raw) <==> free) && (IsLocked(raw) <==> locked)
      && (GetFp(raw) == fp <==> fp < SAFE_FP)
      && (GetAddr(raw) == addr <==> addr < SAFE_ADDR)
  {
    hide Body, SetFree, SetLocked, SetAddr, SetFp, IsFree, IsLocked, GetAddr, GetFp;
    assert Pack(fp, addr, free, locked) == SetLocked(SetFree(Body(fp, addr), free), locked) by {
      PackIsBody(fp, addr, free, locked);
    }
    FlagsKeepBody(Body(fp, addr), free, locked);
    BodyFp(fp, addr);
    BodyAddr(fp, addr);
    LowBits(fp, addr);
  }

  lemma PackIsBody(fp: Word, addr: Word, free: bool, locked: bool)
    ensures Pack(fp, addr, free, locked) == SetLocked(SetFree(Body(fp, addr), free), locked)
  {
  }

  /** A fingerprint of nine bits is lost. */
  lemma WideFingerprintIsLost()
    ensures GetFp(Pack(0x1FF, 0, false, false)) == 0xFF
  {
  }

  /** So a compare-and-swap on packed words compares fingerprints, addresses and flags. */
  lemma PackIsInjective(fp: Word, addr: Word, free: bool, locked: bool,
                        fp': Word, addr': Word, free': bool, locked': bool)
    requires fp < SAFE_FP && fp' < SAFE_FP && addr < SAFE_ADDR && addr' < SAFE_ADDR
    ensures Pack(fp, addr, free, locked) == Pack(fp', addr', free', locked')
            <==> fp == fp' && addr == addr' && free == free' && locked == locked'
  {
    PackRoundTrip(fp, addr, free, locked);
    PackRoundTrip(fp', addr', free', locked');
  }

  /** Fetch-and-add of +1 on an unlocked block, or -1 on a locked one, changes the lock bit only. */
  lemma FetchAddTogglesLock(raw: Word)
    ensures !IsLocked(raw) ==> raw + 1 == SetLocked(raw, true)
    ensures IsLocked(raw) ==> raw - 1 == SetLocked(raw, false)
  {
  }

  /** On a block that is locked already, +1 is no lock at all: it spills into the free bit. */
  lemma LockingTwiceSpills(fp: Word, addr: Word, free: bool)
    requires fp < SAFE_FP && addr < SAFE_ADDR
    ensures var raw := Pack(fp, addr, free, true); !IsLocked(raw + 1) && (IsFree(raw + 1) <==> !free)
  {
  }

  /** The redraw of a block that becomes free, for drawn values that differ from the old ones. */
  function Redrawn(raw: Word, fp: Word, addr: Word): Word {
    SetLocked(SetFree(SetAddr(SetFp(raw, fp), addr), true), false)
  }

  /** The four high and the forty-six low bits of an address. */
  function HighBits(a: Word): Word { a & 0x3_C000_0000_0000 }
  function LowBits46(a: Word): Word { a & 0x3FFF_FFFF_FFFF }

  /** A redraw keeps the high bits of the old address. */
  lemma RedrawnAddr(raw: Word, fp: Word, addr: Word)
    ensures GetAddr(SetAddr(SetFp(raw, fp), addr)) == Join(GetAddr(raw), addr)
  {
  }

  lemma RedrawnFp(raw: Word, fp: Word, addr: Word)
    requires fp < 0x1000
    ensures GetFp(SetAddr(SetFp(raw, fp), addr)) == fp & 0xFF
  {
  }

  function Join(a: Word, b: Word): Word { HighBits(a) | LowBits46(b) }

  lemma JoinLow(a: Word, b: Word)
    ensures LowBits46(Join(a, b)) == LowBits46(b)
  {
  }

  lemma JoinSelf(a: Word, b: Word)
    requires a < 0x4_0000_0000_0000 && b == LowBits46(a)
    ensures Join(a, b) == a
  {
  }

  lemma NarrowAddr(addr: Word)
    requires addr < 0x4000_0000_0000
    ensures LowBits46(addr) == addr
  {
  }

  lemma SameAddr(a: Word, addr: Word)
    requires a < 0x4_0000_0000_0000 && addr < 0x4000_0000_0000
    ensures Join(a, addr) == a <==> addr == LowBits46(a)
  {
    hide Join, HighBits, LowBits46;
    NarrowAddr(addr);
    JoinLow(a, addr);
    if addr == LowBits46(a) {
      JoinSelf(a, addr);
    }
  }

  /** The address after a redraw equals the old one exactly when the drawn bits equal the low
      forty-six bits of the old address: never for an address that packing preserves. */
  lemma RedrawChangesAddress(raw: Word, fp: Word, addr: Word)
    requires fp < FP_LIMIT && addr < 0x400_0000_0000 && addr != GetAddr(raw)
    ensures IsFree(Redrawn(raw, fp, addr)) && !IsLocked(Redrawn(raw, fp, addr))
    ensures GetFp(Redrawn(raw, fp, addr)) == fp & 0xFF
    ensures GetAddr(Redrawn(raw, fp, addr)) == GetAddr(raw) <==> addr == LowBits46(GetAddr(raw))
    ensures GetAddr(raw) < SAFE_ADDR ==> GetAddr(Redrawn(raw, fp, addr)) != GetAddr(raw)
  {
    hide SetFree, SetLocked, SetAddr, SetFp, IsFree, IsLocked, Join, HighBits, LowBits46, GetAddr, GetFp;
    FlagsKeepBody(SetAddr(SetFp(raw, fp), addr), true, false);
    RedrawnAddr(raw, fp, addr);
    RedrawnFp(raw, fp, addr);
    AddrRange(raw);
    Narrower(addr);
    SameAddr(GetAddr(raw), addr);
    if GetAddr(raw) < SAFE_ADDR {
      NarrowAddr(GetAddr(raw));
    }
  }

  lemma Narrower(addr: Word)
    requires addr < 0x400_0000_0000
    ensures addr < 0x4000_0000_0000
  {
  }

  lemma AddrRange(raw: Word)
    ensures GetAddr(raw) < ADDR_LIMIT
  {
  }

  /** A compare-and-swap armed with the word a free slot held before a split locked it fails on
      what the split leaves in the slot: a used block, or a redrawn one. */
  lemma StaleInsertFails(armed: Word, after: Word, fp: Word, addr: Word)
    requires IsFree(armed) && !IsLocked(armed) && GetAddr(armed) < SAFE_ADDR
    requires fp < FP_LIMIT && addr < 0x400_0000_0000 && addr != GetAddr(armed)
    requires !IsFree(after) || after == Redrawn(armed + 1, fp, addr)
    ensures after != armed
  {
    FetchAddTogglesLock(armed);
    assert GetAddr(armed + 1) == GetAddr(armed);
    RedrawChangesAddress(armed + 1, fp, addr);
  }

  // ---- Global addresses ---------------------------------------------------------------------

  function Compose(server: Word, offset: Word): Word { (server << 42) | (offset & 0x3FF_FFFF_FFFF) }
  function ServerOf(addr: Word): Word { addr >> 42 }
  function OffsetOf(addr: Word): Word { addr & 0x3FF_FFFF_FFFF }

  lemma ComposeServer(server: Word, offset: Word)
    requires server < 256
    ensures Compose(server, offset) < 0x4_0000_0000_0000
    ensures Compose(server, offset) >> 42 == server
    ensures Compose(server, offset) < 0x4000_0000_0000 <==> server < 16
  {
  }

  lemma ComposeOffset(server: Word, offset: Word)
    ensures Compose(server, offset) & 0x3FF_FFFF_FFFF == offset & 0x3FF_FFFF_FFFF
    ensures offset & 0x3FF_FFFF_FFFF == offset <==> offset < 0x400_0000_0000
  {
  }

  /** A server index and an offset come back exactly when the offset has forty-two bits; the
      address then survives in a KVBlock exactly for the first sixteen servers. */
  lemma ComposeRoundTrip(server: Word, offset: Word)
    requires server < 256
    ensures var a := Compose(server, offset);
      && a < ADDR_LIMIT && ServerOf(a) == server
      && (OffsetOf(a) == offset <==> offset < 0x400_0000_0000)
      && (a < SAFE_ADDR <==> server < 16)
  {
    hide Compose;
    ComposeServer(server, offset);
    ComposeOffset(server, offset);
  }
}
