/** The allocator stack: bump allocation on memory servers, server choice in turn, slab allocators with
    free lists that double when they run dry, and one slab allocator for each client and block size. */
module Allocators {
  import opened Bits

  /** Bytes a global address can reach on one server, and servers it can name. */
  const SPAN := 0x400_0000_0000
  const SERVERS := 256
  const SPACE := SERVERS * SPAN

  /** The global address of an offset on a server: eight bits of index above forty-two bits of offset. */
  function Address(server: nat, off: nat): nat {
    (server % SERVERS) * SPAN + off % SPAN
  }

  datatype Block = Block(addr: nat, size: nat)

  /** The address of a byte of the block: a global address keeps fifty bits. */
  function ByteAt(b: Block, i: nat): nat {
    (b.addr + i) % SPACE
  }

  /** No byte of one block has the address of a byte of the other. */
  ghost predicate ShareNoByte(b: Block, c: Block) {
    forall i: nat, j: nat :: i < b.size && j < c.size ==> ByteAt(b, i) != ByteAt(c, j)
  }

  predicate Apart(b: Block, c: Block) {
    b.addr + b.size <= c.addr || c.addr + c.size <= b.addr
  }

  // ---- Chunks -------------------------------------------------------------------------------------

  /** A piece of a server's memory given out by its bump allocator. */
  datatype Chunk = Chunk(server: nat, off: nat, size: nat)
  {
    function Place(): Block { Block(Address(server, off), size) }
  }

  /** Chunk `i` covers offset `x` of server `s`. */
  predicate Covers(chunks: seq<Chunk>, i: nat, s: nat, x: nat) {
    i < |chunks| && chunks[i].server == s && chunks[i].off <= x < chunks[i].off + chunks[i].size
  }

  ghost predicate Covered(chunks: seq<Chunk>, s: nat, x: nat) {
    exists i :: Covers(chunks, i, s, x)
  }

  /** The chunks tile each server's memory from 0 up to its next offset. */
  ghost predicate Tiled(chunks: seq<Chunk>, next: seq<nat>) {
    && (forall i :: 0 <= i < |chunks| ==>
          chunks[i].server < |next| && chunks[i].off + chunks[i].size <= next[chunks[i].server])
    && (forall i, j :: 0 <= i < j < |chunks| && chunks[i].server == chunks[j].server ==>
          chunks[i].off + chunks[i].size <= chunks[j].off)
    && (forall s, x :: 0 <= s < |next| && 0 <= x < next[s] ==> Covered(chunks, s, x))
  }

  lemma BumpKeepsTiled(chunks: seq<Chunk>, next: seq<nat>, s: nat, size: nat)
    requires Tiled(chunks, next) && s < |next|
    ensures Tiled(chunks + [Chunk(s, next[s], size)], next[s := next[s] + size])
  {
    var chunks' := chunks + [Chunk(s, next[s], size)];
    var next' := next[s := next[s] + size];
    forall r, x | 0 <= r < |next'| && 0 <= x < next'[r]
      ensures Covered(chunks', r, x)
    {
      if x < next[r] {
        assert Covered(chunks, r, x);
        var i: nat :| Covers(chunks, i, r, x);
        assert Covers(chunks', i, r, x);
      } else {
        assert Covers(chunks', |chunks|, r, x);
      }
    }
  }

  /** The servers gave out the chunks one after the other, and the first one again after the last. */
  ghost predicate InTurn(chunks: seq<Chunk>, servers: nat)
    requires servers > 0
  {
    forall i :: 0 <= i < |chunks| ==> chunks[i].server == i % servers
  }

  /** The chunks that a server gave out. */
  function ChunksOf(chunks: seq<Chunk>, s: nat): (n: nat)
    ensures n <= |chunks|
  {
    if chunks == [] then 0
    else ChunksOf(chunks[..|chunks| - 1], s) + if chunks[|chunks| - 1].server == s then 1 else 0
  }

  lemma NextInTurn(chunks: seq<Chunk>, servers: nat, off: nat, size: nat)
    requires servers > 0 && InTurn(chunks, servers)
    ensures InTurn(chunks + [Chunk(|chunks| % servers, off, size)], servers)
  {
  }

  /** So after `q` rounds and `r` requests more each server gave out `q` chunks, and the first `r` of them one
      more. */
  lemma {:induction false} ChunksInTurn(chunks: seq<Chunk>, servers: nat, s: nat, q: nat, r: nat)
    requires s < servers && InTurn(chunks, servers) && |chunks| == q * servers + r && r < servers
    ensures ChunksOf(chunks, s) == q + if s < r then 1 else 0
    decreases |chunks|
  {
    var k := |chunks|;
    if r > 0 {
      Quotient(k - 1, servers, q, r - 1);
      ChunksInTurn(chunks[..k - 1], servers, s, q, r - 1);
    } else if q > 0 {
      assert k - 1 == (q - 1) * servers + (servers - 1);
      Quotient(k - 1, servers, q - 1, servers - 1);
      ChunksInTurn(chunks[..k - 1], servers, s, q - 1, servers - 1);
    }
  }

  lemma Quotient(k: nat, d: nat, q: nat, r: nat)
    requires d > 0 && k == q * d + r && r < d
    ensures k / d == q && k % d == r
  {
    var q' := k / d;
    assert k == q' * d + k % d;
    if q' < q {
      Multiples(q' + 1, q, d);
    }
    if q < q' {
      Multiples(q + 1, q', d);
    }
  }

  /** The numbers of chunks of two servers differ by at most one. */
  lemma ServersAreBalanced(chunks: seq<Chunk>, servers: nat, s: nat, t: nat)
    requires s < servers && t < servers && InTurn(chunks, servers)
    ensures ChunksOf(chunks, s) <= ChunksOf(chunks, t) + 1
  {
    var q, r := |chunks| / servers, |chunks| % servers;
    ChunksInTurn(chunks, servers, s, q, r);
    ChunksInTurn(chunks, servers, t, q, r);
  }

  /** No server has given out more than its span, and every server has a number of its own. */
  ghost predicate Fits(next: seq<nat>) {
    |next| <= SERVERS && forall s :: 0 <= s < |next| ==> next[s] <= SPAN
  }

  predicate IsByte(chunks: seq<Chunk>, x: nat, i: nat) {
    x < |chunks| && i < chunks[x].size
  }

  /** Every byte given out has an address on an existing server, and no two bytes have the same. */
  ghost predicate Usable(chunks: seq<Chunk>, servers: nat) {
    && (forall x: nat, i: nat :: IsByte(chunks, x, i) ==> ByteAt(chunks[x].Place(), i) / SPAN < servers)
    && (forall x: nat, i: nat, y: nat, j: nat ::
          (IsByte(chunks, x, i) && IsByte(chunks, y, j) && ByteAt(chunks[x].Place(), i) == ByteAt(chunks[y].Place(), j))
          ==> x == y && i == j)
  }

  /** As long as the memory fits, the address of a byte tells its server and its offset there. */
  lemma TrueAddress(chunks: seq<Chunk>, next: seq<nat>, x: nat, i: nat)
    requires Tiled(chunks, next) && Fits(next) && IsByte(chunks, x, i)
    ensures var c := chunks[x];
      && ByteAt(c.Place(), i) == c.server * SPAN + (c.off + i) && c.off + i < SPAN && c.server < |next|
      && ByteAt(c.Place(), i) / SPAN == c.server && ByteAt(c.Place(), i) % SPAN == c.off + i
  {
    var c := chunks[x];
    assert c.off + c.size <= next[c.server] <= SPAN;
    Multiples(c.server + 1, SERVERS, SPAN);
    SplitAddress(c.server, c.off + i);
    SmallModulus(c.server * SPAN + c.off + i, SPACE);
  }

  lemma SmallModulus(a: nat, n: nat)
    requires a < n
    ensures a % n == a
  {
  }

  lemma FittingIsUsable(chunks: seq<Chunk>, next: seq<nat>)
    requires Tiled(chunks, next) && Fits(next)
    ensures Usable(chunks, |next|)
  {
    hide Fits;
    forall x: nat, i: nat | IsByte(chunks, x, i)
      ensures ByteAt(chunks[x].Place(), i) / SPAN < |next|
    {
      TrueAddress(chunks, next, x, i);
    }
    forall x: nat, i: nat, y: nat, j: nat | IsByte(chunks, x, i) && IsByte(chunks, y, j)
        && ByteAt(chunks[x].Place(), i) == ByteAt(chunks[y].Place(), j)
      ensures x == y && i == j
    {
      TrueAddress(chunks, next, x, i);
      TrueAddress(chunks, next, y, j);
      hide ByteAt;
      assert chunks[x].server == chunks[y].server && chunks[x].off + i == chunks[y].off + j;
    }
  }

  /** Two bytes with one address, or a byte without a server, make the memory unusable. */
  lemma SameByte(chunks: seq<Chunk>, servers: nat, x: nat, i: nat, y: nat, j: nat)
    requires IsByte(chunks, x, i) && IsByte(chunks, y, j) && (x != y || i != j)
    requires ByteAt(chunks[x].Place(), i) == ByteAt(chunks[y].Place(), j)
    ensures !Usable(chunks, servers)
  {
  }

  /** The byte at offset `off` of a server. */
  lemma ByteOf(chunks: seq<Chunk>, next: seq<nat>, s: nat, off: nat) returns (x: nat, i: nat)
    requires Tiled(chunks, next) && s < |next| && off < next[s]
    ensures IsByte(chunks, x, i) && chunks[x].server == s && chunks[x].off + i == off
  {
    assert Covered(chunks, s, off);
    x :| Covers(chunks, x, s, off);
    i := off - chunks[x].off;
  }

  /** The first byte of a chunk that starts beyond the span has the address of a byte given out before. */
  lemma FarChunkWraps(chunks: seq<Chunk>, next: seq<nat>, servers: nat, y: nat)
    requires Tiled(chunks, next) && IsByte(chunks, y, 0) && chunks[y].off >= SPAN
    ensures !Usable(chunks, servers)
  {
    var d := chunks[y];
    var x, i := ByteOf(chunks, next, d.server, d.off % SPAN);
    assert chunks[x].Place().addr == (d.server % SERVERS) * SPAN + chunks[x].off;
    assert ByteAt(chunks[x].Place(), i) == ByteAt(d.Place(), 0);
    SameByte(chunks, servers, x, i, y, 0);
  }

  /** A server that gives out more than its span: the byte at the span has the address of the first byte
      of the next server, which is the first server again after number 255, or no server's. */
  lemma SpillOver(chunks: seq<Chunk>, next: seq<nat>, s: nat)
    requires Tiled(chunks, next) && s < |next| <= SERVERS && next[s] > SPAN
    requires forall r :: 0 <= r < |next| ==> next[r] > 0
    ensures !Usable(chunks, |next|)
  {
    var x, i := ByteOf(chunks, next, s, SPAN);
    var c := chunks[x];
    if c.off >= SPAN {
      FarChunkWraps(chunks, next, |next|, x);
    } else {
      SpilledByte(c, i);
      if s + 1 < |next| {
        var y, j := ByteOf(chunks, next, s + 1, 0);
        FirstByte(chunks[y], j);
        SameByte(chunks, |next|, x, i, y, j);
      } else if s + 1 == SERVERS {
        var y, j := ByteOf(chunks, next, 0, 0);
        FirstByte(chunks[y], j);
        SameByte(chunks, |next|, x, i, y, j);
      } else {
        SplitAddress(s + 1, 0);
      }
    }
  }

  lemma SpilledByte(c: Chunk, i: nat)
    requires c.server < SERVERS && c.off < SPAN && c.off + i == SPAN
    ensures ByteAt(c.Place(), i) == if c.server + 1 == SERVERS then 0 else (c.server + 1) * SPAN
  {
    assert c.Place().addr == c.server * SPAN + c.off;
    assert c.Place().addr + i == (c.server + 1) * SPAN;
    if c.server + 1 < SERVERS {
      SmallModulus((c.server + 1) * SPAN, SPACE);
    } else {
      assert c.Place().addr + i == SPACE;
    }
  }

  lemma FirstByte(c: Chunk, i: nat)
    requires c.server < SERVERS && c.off + i == 0
    ensures ByteAt(c.Place(), i) == c.server * SPAN
  {
    Multiples(c.server + 1, SERVERS, SPAN);
    SmallModulus(c.server * SPAN, SPACE);
  }

  /** Two servers whose numbers agree in eight bits share their addresses. */
  lemma ManyServersOverlap(chunks: seq<Chunk>, next: seq<nat>)
    requires Tiled(chunks, next) && |next| > SERVERS && next[0] > 0 && next[SERVERS] > 0
    ensures !Usable(chunks, |next|)
  {
    var x, i := ByteOf(chunks, next, 0, 0);
    var y, j := ByteOf(chunks, next, SERVERS, 0);
    assert chunks[x].Place().addr == chunks[y].Place().addr;
    SameByte(chunks, |next|, x, i, y, j);
  }

  /** Once every server has given out some memory, every byte has an address of its own on an existing
      server if and only if there are at most 256 servers and none has given out more than 2^42 bytes. */
  lemma UsableIffFits(chunks: seq<Chunk>, next: seq<nat>)
    requires Tiled(chunks, next) && forall s :: 0 <= s < |next| ==> next[s] > 0
    ensures Usable(chunks, |next|) <==>
      |next| <= 256 && forall s :: 0 <= s < |next| ==> next[s] <= 0x400_0000_0000
  {
    hide Usable, Tiled;
    if Fits(next) {
      FittingIsUsable(chunks, next);
    } else if |next| > SERVERS {
      ManyServersOverlap(chunks, next);
    } else {
      var s: nat :| s < |next| && next[s] > SPAN;
      SpillOver(chunks, next, s);
    }
  }

  // ---- The ledger of all blocks --------------------------------------------------------------------

  /** A client and a size class: the name of one slab allocator. */
  datatype Name = Name(client: nat, size: nat)

  /** Where a block is: with a user, or in a free list. */
  datatype Holder = User | List(name: Name)

  type Ledger = map<Block, Holder>
  type FreeLists = map<Name, seq<nat>>

  /** The block lies in memory its server has given out. */
  ghost predicate Inside(b: Block, next: seq<nat>) {
    b.size > 0 && b.addr / SPAN < |next| && b.addr % SPAN + b.size <= next[b.addr / SPAN]
  }

  ghost predicate Listed(ledger: Ledger, name: Name, addr: nat) {
    Block(addr, name.size) in ledger && ledger[Block(addr, name.size)] == List(name)
  }

  ghost predicate NoRepeats(s: seq<nat>) {
    forall i, j :: 0 <= i < j < |s| ==> s[i] != s[j]
  }

  /** Free lists and ledger agree: each block is in one place, and all blocks are apart. */
  ghost predicate Agrees(ledger: Ledger, free: FreeLists) {
    && (forall name :: name in free ==> NoRepeats(free[name]))
    && (forall name, addr :: name in free && addr in free[name] ==> Listed(ledger, name, addr))
    && (forall b :: b in ledger && ledger[b].List? ==>
          && ledger[b].name in free && ledger[b].name.size == b.size && b.addr in free[ledger[b].name])
  }

  ghost predicate AllInside(ledger: Ledger, next: seq<nat>) {
    forall b :: b in ledger ==> Inside(b, next)
  }

  ghost predicate AllApart(ledger: Ledger) {
    forall b, c :: b in ledger && c in ledger && b != c ==> Apart(b, c)
  }

  ghost predicate Sound(ledger: Ledger, free: FreeLists, next: seq<nat>) {
    Agrees(ledger, free) && AllInside(ledger, next) && AllApart(ledger)
  }

  /** The ledger after `name` has cut a chunk into the blocks at `offsets`. */
  ghost function Entered(ledger: Ledger, name: Name, offsets: seq<nat>): Ledger {
    map b | b in ledger.Keys + (set x | x in offsets :: Block(x, name.size)) ::
      if b in ledger then ledger[b] else List(name)
  }

  ghost predicate Has(ledger: Ledger, name: Name, offsets: seq<nat>, b: Block) {
    b in ledger || (b.size == name.size && b.addr in offsets)
  }

  lemma EnteredHas(ledger: Ledger, name: Name, offsets: seq<nat>, b: Block)
    ensures b in Entered(ledger, name, offsets) <==> Has(ledger, name, offsets, b)
  {
    if b.size == name.size && b.addr in offsets {
      assert Block(b.addr, name.size) in (set x | x in offsets :: Block(x, name.size));
    }
  }

  lemma NextAddress(next: seq<nat>, s: nat, k: nat, size: nat)
    requires s < |next| && k > 0 && size > 0 && Fits(next[s := next[s] + k * size])
    ensures Address(s, next[s]) == s * SPAN + next[s] && next[s] + k * size <= SPAN
  {
    Multiples(1, k, size);
    assert next[s := next[s] + k * size][s] <= SPAN;
  }

  lemma SplitAddress(s: nat, off: nat)
    requires off < SPAN
    ensures (s * SPAN + off) / SPAN == s && (s * SPAN + off) % SPAN == off
  {
  }

  /** Outside `but` nothing is forgotten, nothing moves, and nobody gets a new block. */
  ghost predicate Kept(before: Ledger, after: Ledger, but: set<Block>) {
    && (forall b :: b in before && b !in but ==> b in after && after[b] == before[b])
    && (forall b :: b in after && after[b] == User && b !in but ==> b in before)
  }

  lemma EnteredKept(ledger: Ledger, name: Name, offsets: seq<nat>)
    ensures Kept(ledger, Entered(ledger, name, offsets), {})
  {
  }

  /** Any two blocks of a grown ledger are apart: the new chunk lies above all its server gave out. */
  lemma NewBlockApart(b: Block, next: seq<nat>, s: nat, k: nat, size: nat, i: nat)
    requires Inside(b, next) && s < |next| && i < k && size > 0
    requires Fits(next) && Fits(next[s := next[s] + k * size])
    ensures Apart(b, Block(Address(s, next[s]) + i * size, size))
  {
    Multiples(i + 1, k, size);
    var r := b.addr / SPAN;
    assert b.addr == r * SPAN + b.addr % SPAN;
    NextAddress(next, s, k, size);
    if r < s {
      Multiples(r + 1, s, SPAN);
    } else if s < r {
      Multiples(s + 1, r, SPAN);
    }
  }

  lemma NewBlockInside(next: seq<nat>, s: nat, k: nat, size: nat, i: nat)
    requires s < |next| && i < k && size > 0 && Fits(next) && Fits(next[s := next[s] + k * size])
    ensures Inside(Block(Address(s, next[s]) + i * size, size), next[s := next[s] + k * size])
  {
    Multiples(i + 1, k, size);
    var off := next[s] + i * size;
    NextAddress(next, s, k, size);
    SplitAddress(s, off);
  }

  lemma StillInside(b: Block, next: seq<nat>, s: nat, more: nat)
    requires Inside(b, next) && s < |next|
    ensures Inside(b, next[s := next[s] + more])
  {
  }

  lemma SlabsApart(start: nat, size: nat, k: nat, i: nat, j: nat)
    requires i < j < k && size > 0
    ensures Slabs(start, size, k)[i] + size <= Slabs(start, size, k)[j]
  {
    Multiples(i + 1, j, size);
  }

  lemma GrowthFresh(ledger: Ledger, free: FreeLists, next: seq<nat>, name: Name, s: nat, k: nat)
    requires Sound(ledger, free, next) && s < |next| && name.size > 0
    requires Fits(next) && Fits(next[s := next[s] + k * name.size])
    ensures forall x, b :: x in Slabs(Address(s, next[s]), name.size, k) && b in ledger ==>
      Apart(b, Block(x, name.size))
    ensures forall x :: x in Slabs(Address(s, next[s]), name.size, k) ==>
      Inside(Block(x, name.size), next[s := next[s] + k * name.size])
    ensures forall x :: x in Slabs(Address(s, next[s]), name.size, k) ==> Block(x, name.size) !in ledger
  {
    var offsets := Slabs(Address(s, next[s]), name.size, k);
    forall x | x in offsets
      ensures Inside(Block(x, name.size), next[s := next[s] + k * name.size])
      ensures forall b :: b in ledger ==> Apart(b, Block(x, name.size))
    {
      var i: nat :| i < k && offsets[i] == x;
      NewBlockInside(next, s, k, name.size, i);
      forall b | b in ledger
        ensures Apart(b, Block(x, name.size))
      {
        NewBlockApart(b, next, s, k, name.size, i);
      }
    }
    forall x | x in offsets
      ensures Block(x, name.size) !in ledger
    {
      assert !Apart(Block(x, name.size), Block(x, name.size));
    }
  }

  lemma GrowthAgrees(ledger: Ledger, free: FreeLists, name: Name, offsets: seq<nat>)
    requires Agrees(ledger, free) && name in free && NoRepeats(offsets)
    requires forall x :: x in offsets ==> Block(x, name.size) !in ledger
    ensures Agrees(Entered(ledger, name, offsets), free[name := free[name] + offsets])
  {
    var ledger' := Entered(ledger, name, offsets);
    var free' := free[name := free[name] + offsets];
    assert forall x :: x in free[name] ==> Listed(ledger, name, x);
    assert NoRepeats(free[name]);
    assert forall j :: 0 <= j < |offsets| ==> offsets[j] in offsets && offsets[j] !in free[name];
    assert NoRepeats(free[name] + offsets);
    forall n, addr | n in free' && addr in free'[n]
      ensures Listed(ledger', n, addr)
    {
      EnteredHas(ledger, name, offsets, Block(addr, n.size));
      assert n in free && addr in free[n] ==> Listed(ledger, n, addr);
    }
    forall b | b in ledger' && ledger'[b].List?
      ensures ledger'[b].name in free' && ledger'[b].name.size == b.size && b.addr in free'[ledger'[b].name]
    {
      EnteredHas(ledger, name, offsets, b);
    }
  }

  lemma GrowthApart(ledger: Ledger, name: Name, offsets: seq<nat>)
    requires AllApart(ledger)
    requires forall i, j :: 0 <= i < j < |offsets| ==> offsets[i] + name.size <= offsets[j]
    requires forall x, b :: x in offsets && b in ledger ==> Apart(b, Block(x, name.size))
    ensures AllApart(Entered(ledger, name, offsets))
  {
    var ledger' := Entered(ledger, name, offsets);
    forall b, c | b in ledger' && c in ledger' && b != c
      ensures Apart(b, c)
    {
      EnteredHas(ledger, name, offsets, b);
      EnteredHas(ledger, name, offsets, c);
      assert b !in ledger ==> b == Block(b.addr, name.size) && b.addr in offsets;
      assert c !in ledger ==> c == Block(c.addr, name.size) && c.addr in offsets;
    }
  }

  lemma GrowthInside(ledger: Ledger, next: seq<nat>, name: Name, offsets: seq<nat>, s: nat, more: nat)
    requires AllInside(ledger, next) && s < |next|
    requires forall x :: x in offsets ==> Inside(Block(x, name.size), next[s := next[s] + more])
    ensures AllInside(Entered(ledger, name, offsets), next[s := next[s] + more])
  {
    hide Inside, Entered;
    var ledger' := Entered(ledger, name, offsets);
    forall b | b in ledger'
      ensures Inside(b, next[s := next[s] + more])
    {
      EnteredHas(ledger, name, offsets, b);
      if b in ledger {
        StillInside(b, next, s, more);
      } else {
        assert b == Block(b.addr, name.size);
      }
    }
  }

  /** Growth keeps the ledger sound as long as the servers do not run out of addresses. */
  lemma GrowthKeepsSound(ledger: Ledger, free: FreeLists, next: seq<nat>, name: Name, s: nat, k: nat)
    requires Sound(ledger, free, next) && name in free && s < |next| && name.size > 0
    requires Fits(next) && Fits(next[s := next[s] + k * name.size])
    ensures var offsets := Slabs(Address(s, next[s]), name.size, k);
      Sound(Entered(ledger, name, offsets), free[name := free[name] + offsets], next[s := next[s] + k * name.size])
  {
    var offsets := Slabs(Address(s, next[s]), name.size, k);
    var ledger' := Entered(ledger, name, offsets);
    GrowthFresh(ledger, free, next, name, s, k);
    hide Inside, Apart, Agrees, AllApart, AllInside, Fits, Entered;
    forall i: nat, j: nat | i < j < k
      ensures offsets[i] + name.size <= offsets[j]
    {
      SlabsApart(Address(s, next[s]), name.size, k, i, j);
    }
    GrowthAgrees(ledger, free, name, offsets);
    GrowthApart(ledger, name, offsets);
    GrowthInside(ledger, next, name, offsets, s, k * name.size);
  }

  lemma RefillKeepsSound(ledger: Ledger, free: FreeLists, next: seq<nat>, name: Name, s: nat, k: nat)
    requires Sound(ledger, free, next) && name in free && s < |next| && (name.size > 0 || k == 0)
    requires Fits(next) && Fits(next[s := next[s] + k * name.size])
    ensures var offsets := Slabs(Address(s, next[s]), name.size, k);
      Sound(Entered(ledger, name, offsets), free[name := free[name] + offsets], next[s := next[s] + k * name.size])
  {
    if name.size > 0 {
      GrowthKeepsSound(ledger, free, next, name, s, k);
    } else {
      assert Entered(ledger, name, []) == ledger;
      assert free[name] + [] == free[name] && free[name := free[name]] == free;
      assert next[s := next[s] + k * name.size] == next;
      assert Slabs(Address(s, next[s]), name.size, k) == [];
    }
  }

  lemma FitsBefore(next: seq<nat>, s: nat, more: nat)
    requires s < |next| && Fits(next[s := next[s] + more])
    ensures Fits(next)
  {
    var next' := next[s := next[s] + more];
    assert forall r :: 0 <= r < |next| ==> next[r] <= next'[r];
  }

  lemma EmptyList(ledger: Ledger, free: FreeLists, next: seq<nat>, name: Name)
    requires Sound(ledger, free, next) && name !in free
    ensures Sound(ledger, free[name := []], next)
  {
    hide Inside, Apart;
  }

  lemma NewListKeepsSound(ledger: Ledger, free: FreeLists, next: seq<nat>, name: Name, s: nat, k: nat)
    requires s < |next| && (name.size > 0 || k == 0) && Fits(next[s := next[s] + k * name.size])
    requires (Fits(next) ==> Sound(ledger, free, next)) && name !in free
    ensures var offsets := Slabs(Address(s, next[s]), name.size, k);
      Sound(Entered(ledger, name, offsets), free[name := offsets], next[s := next[s] + k * name.size])
  {
    FitsBefore(next, s, k * name.size);
    EmptyList(ledger, free, next, name);
    hide Sound, Fits, Entered, Slabs, Address;
    RefillKeepsSound(ledger, free[name := []], next, name, s, k);
    var offsets := Slabs(Address(s, next[s]), name.size, k);
    assert [] + offsets == offsets && free[name := []][name := offsets] == free[name := offsets];
  }

  /** A block taken from a free list goes to a user, and back again to any list of its size. */
  lemma TakeKeepsSound(ledger: Ledger, free: FreeLists, next: seq<nat>, name: Name, i: nat)
    requires Sound(ledger, free, next) && name in free && i < |free[name]|
    ensures var b := Block(free[name][i], name.size);
      && Listed(ledger, name, b.addr)
      && Sound(ledger[b := User], free[name := free[name][..i] + free[name][i + 1..]], next)
  {
    hide Inside, Apart;
    var list := free[name];
    var rest := list[..i] + list[i + 1..];
    var b := Block(list[i], name.size);
    assert list[i] in list;
    assert Listed(ledger, name, b.addr);
    RestOf(list, i);
    var ledger', free' := ledger[b := User], free[name := rest];
    assert forall x :: x in rest ==> x in list;
    forall n, addr | n in free' && addr in free'[n]
      ensures Listed(ledger', n, addr)
    {
      assert n in free && addr in free[n];
      assert Listed(ledger, n, addr);
    }
  }

  lemma RestOf(list: seq<nat>, i: nat)
    requires NoRepeats(list) && i < |list|
    ensures var rest := list[..i] + list[i + 1..];
      NoRepeats(rest) && forall x :: x in rest <==> x in list && x != list[i]
  {
    var rest := list[..i] + list[i + 1..];
    assert forall j :: 0 <= j < |rest| ==> rest[j] == if j < i then list[j] else list[j + 1];
    forall x | x in list && x != list[i]
      ensures x in rest
    {
      var j :| 0 <= j < |list| && list[j] == x;
      assert rest[if j < i then j else j - 1] == x;
    }
  }

  lemma GiveKeepsSound(ledger: Ledger, free: FreeLists, next: seq<nat>, name: Name, addr: nat)
    requires Sound(ledger, free, next) && name in free
    requires Block(addr, name.size) in ledger && ledger[Block(addr, name.size)] == User
    ensures Sound(ledger[Block(addr, name.size) := List(name)], free[name := free[name] + [addr]], next)
  {
    hide Inside, Apart;
    var b := Block(addr, name.size);
    var ledger', free' := ledger[b := List(name)], free[name := free[name] + [addr]];
    assert addr in free[name] ==> Listed(ledger, name, addr);
    forall n, x | n in free' && x in free'[n]
      ensures Listed(ledger', n, x)
    {
      assert n in free && x in free[n] ==> Listed(ledger, n, x);
    }
  }

  /** Blocks that are apart in memory that fits share no byte. */
  lemma ApartShareNoByte(b: Block, c: Block, next: seq<nat>)
    requires Fits(next) && Inside(b, next) && Inside(c, next) && Apart(b, c)
    ensures ShareNoByte(b, c)
  {
    InsideSpace(b, next);
    InsideSpace(c, next);
    forall i: nat, j: nat | i < b.size && j < c.size
      ensures ByteAt(b, i) != ByteAt(c, j)
    {
      SmallModulus(b.addr + i, SPACE);
      SmallModulus(c.addr + j, SPACE);
    }
  }

  lemma InsideSpace(b: Block, next: seq<nat>)
    requires Fits(next) && Inside(b, next)
    ensures b.addr + b.size <= SPACE
  {
    var s := b.addr / SPAN;
    Multiples(s + 1, SERVERS, SPAN);
    assert b.addr == s * SPAN + b.addr % SPAN;
  }

  /** What soundness means for the users: no byte is handed out twice, handed out while in a free list,
      or in two free lists or twice in one. */
  lemma NoByteTwice(ledger: Ledger, free: FreeLists, next: seq<nat>)
    requires Sound(ledger, free, next) && Fits(next)
    ensures forall b, c :: b in ledger && c in ledger && b != c ==> ShareNoByte(b, c)
    ensures forall n, i :: n in free && 0 <= i < |free[n]| ==> Listed(ledger, n, free[n][i])
    ensures forall m, n, i, j ::
      (m in free && n in free && 0 <= i < |free[m]| && 0 <= j < |free[n]| && free[m][i] == free[n][j]
        && m.size == n.size)
      ==> m == n && i == j
  {
    forall b, c | b in ledger && c in ledger && b != c
      ensures ShareNoByte(b, c)
    {
      ApartShareNoByte(b, c, next);
    }
    forall m, i | m in free && 0 <= i < |free[m]|
      ensures Listed(ledger, m, free[m][i])
    {
      assert free[m][i] in free[m];
    }
    assert forall m :: m in free ==> NoRepeats(free[m]);
  }

  // ---- Every byte given out is in the ledger --------------------------------------------------------

  /** Offset `x` of server `s` lies in a block. */
  ghost predicate InLedger(ledger: Ledger, s: nat, x: nat) {
    exists b :: b in ledger && b.addr <= s * SPAN + x < b.addr + b.size
  }

  ghost predicate Accounted(ledger: Ledger, next: seq<nat>) {
    forall s: nat, x: nat :: s < |next| && x < next[s] ==> InLedger(ledger, s, x)
  }

  lemma GrowthAccounted(ledger: Ledger, next: seq<nat>, name: Name, s: nat, k: nat)
    requires Accounted(ledger, next) && s < |next| && (name.size > 0 || k == 0)
      && Fits(next[s := next[s] + k * name.size])
    ensures var offsets := Slabs(Address(s, next[s]), name.size, k);
      Accounted(Entered(ledger, name, offsets), next[s := next[s] + k * name.size])
  {
    var offsets := Slabs(Address(s, next[s]), name.size, k);
    var ledger', next' := Entered(ledger, name, offsets), next[s := next[s] + k * name.size];
    forall r: nat, x: nat | r < |next'| && x < next'[r]
      ensures InLedger(ledger', r, x)
    {
      if x < next[r] {
        assert InLedger(ledger, r, x);
        var b :| b in ledger && b.addr <= r * SPAN + x < b.addr + b.size;
        EnteredHas(ledger, name, offsets, b);
        assert b in ledger';
      } else {
        NewByte(ledger, next, name, s, k, x);
      }
    }
  }

  lemma NewByte(ledger: Ledger, next: seq<nat>, name: Name, s: nat, k: nat, x: nat)
    requires s < |next| && Fits(next[s := next[s] + k * name.size]) && next[s] <= x < next[s] + k * name.size
    ensures InLedger(Entered(ledger, name, Slabs(Address(s, next[s]), name.size, k)), s, x)
  {
    var size, d := name.size, x - next[s];
    WhichSlab(d, k, size);
    var j := d / size;
    NextAddress(next, s, k, size);
    var offsets := Slabs(Address(s, next[s]), size, k);
    var b := Block(offsets[j], size);
    assert offsets[j] in offsets;
    EnteredHas(ledger, name, offsets, b);
  }

  lemma WhichSlab(d: nat, k: nat, size: nat)
    requires d < k * size
    ensures size > 0 && k > 0 && d / size < k && (d / size) * size <= d < (d / size) * size + size
  {
    var j := d / size;
    assert d == j * size + d % size;
    if j >= k {
      Multiples(k, j, size);
    }
  }

  lemma SameKeysAccounted(ledger: Ledger, after: Ledger, next: seq<nat>)
    requires Accounted(ledger, next) && ledger.Keys <= after.Keys
    ensures Accounted(after, next)
  {
    forall s: nat, x: nat | s < |next| && x < next[s]
      ensures InLedger(after, s, x)
    {
      assert InLedger(ledger, s, x);
      var b :| b in ledger && b.addr <= s * SPAN + x < b.addr + b.size;
      assert b in after;
    }
  }

  /** Enqueueing an address in a free list keeps the ledger sound if and only if it is that of a block of
      this size that a user holds. */
  lemma GiveIffHeld(ledger: Ledger, free: FreeLists, next: seq<nat>, name: Name, addr: nat)
    requires Sound(ledger, free, next) && Accounted(ledger, next) && name in free
    ensures var b := Block(addr, name.size);
      Sound(ledger[b := List(name)], free[name := free[name] + [addr]], next) <==> b in ledger && ledger[b] == User
  {
    var b := Block(addr, name.size);
    hide Sound, Accounted;
    if b in ledger && ledger[b] == User {
      GiveKeepsSound(ledger, free, next, name, addr);
    } else if b in ledger {
      GiveListed(ledger, free, next, name, addr);
    } else {
      GiveUnknown(ledger, free, next, name, addr);
    }
  }

  lemma GiveListed(ledger: Ledger, free: FreeLists, next: seq<nat>, name: Name, addr: nat)
    requires Sound(ledger, free, next) && name in free
    requires Block(addr, name.size) in ledger && ledger[Block(addr, name.size)].List?
    ensures !Sound(ledger[Block(addr, name.size) := List(name)], free[name := free[name] + [addr]], next)
  {
    var b := Block(addr, name.size);
    var m := ledger[b].name;
    var after, free' := ledger[b := List(name)], free[name := free[name] + [addr]];
    assert addr in free[m];
    if m == name {
      var i :| 0 <= i < |free[m]| && free[m][i] == addr;
      assert free'[name][i] == free'[name][|free[name]|];
    } else {
      assert addr in free'[m] && !Listed(after, m, addr);
    }
  }

  lemma GiveUnknown(ledger: Ledger, free: FreeLists, next: seq<nat>, name: Name, addr: nat)
    requires Sound(ledger, free, next) && Accounted(ledger, next) && Block(addr, name.size) !in ledger && name in free
    ensures !Sound(ledger[Block(addr, name.size) := List(name)], free[name := free[name] + [addr]], next)
  {
    var b := Block(addr, name.size);
    var after := ledger[b := List(name)];
    assert b in after;
    if Inside(b, next) {
      var s, x := addr / SPAN, addr % SPAN;
      assert addr == s * SPAN + x && InLedger(ledger, s, x);
      var c :| c in ledger && c.addr <= addr < c.addr + c.size;
      assert c in after && !Apart(b, c);
    }
  }

  /** The ledger after an allocation of `addr` (or none, if it is -1) by `name`, which cut `offsets`. */
  ghost function TakenFrom(ledger: Ledger, name: Name, offsets: seq<nat>, addr: int): Ledger {
    if addr < 0 then Entered(ledger, name, offsets) else Entered(ledger, name, offsets)[Block(addr, name.size) := User]
  }

  /** The first chunk of the first server starts at address 0, which becomes a block of the slab allocator
      that asks first. */
  lemma FirstOffset(ledger: Ledger, name: Name, server: nat, next: nat, k: nat)
    ensures server == 0 && next == 0 && k > 0 ==>
      Block(0, name.size) in Entered(ledger, name, Slabs(Address(server, next), name.size, k))
  {
    if server == 0 && next == 0 && k > 0 {
      var offsets := Slabs(Address(server, next), name.size, k);
      assert offsets[0] == 0;
      EnteredHas(ledger, name, offsets, Block(0, name.size));
    }
  }

  /** Address 0 belongs to one block, so to one size class: allocations of other sizes never return it. */
  lemma OneBlockAtNull(ledger: Ledger, free: FreeLists, next: seq<nat>, b: Block, c: Block)
    requires Sound(ledger, free, next) && b in ledger && c in ledger && b.addr == c.addr == 0
    ensures b == c
  {
    assert Inside(b, next) && Inside(c, next);
  }

  lemma NullOfOtherSize(before: Ledger, after: Ledger, free: FreeLists, next: seq<nat>, b: Block)
    requires Sound(after, free, next) && b in after && Kept(before, after, {b})
    ensures forall z :: Block(0, z) in before && z != b.size ==> b.addr != 0
  {
    forall z | Block(0, z) in before && z != b.size
      ensures b.addr != 0
    {
      if b.addr == 0 {
        OneBlockAtNull(after, free, next, b, Block(0, z));
      }
    }
  }

  /** Freeing a listed block once more puts it into two places: two users can get the same bytes. */
  lemma DoubleFreeSharesABlock(ledger: Ledger, free: FreeLists, next: seq<nat>, name: Name, addr: nat)
    returns (m: Name, i: nat, j: nat)
    requires Sound(ledger, free, next) && name in free
    requires Block(addr, name.size) in ledger && ledger[Block(addr, name.size)].List?
    ensures var after := free[name := free[name] + [addr]];
      && m in after && m.size == name.size && i < |after[m]| && j < |after[name]| && (m != name || i != j)
      && after[m][i] == after[name][j] == addr && !Apart(Block(addr, m.size), Block(addr, name.size))
  {
    var b := Block(addr, name.size);
    assert Inside(b, next);
    m := ledger[b].name;
    i :| 0 <= i < |free[m]| && free[m][i] == addr;
    j := |free[name]|;
  }

  lemma KeptAll(ledger: Ledger)
    ensures Kept(ledger, ledger, {})
  {
  }

  lemma TakenKept(ledger: Ledger, name: Name, offsets: seq<nat>, addr: int)
    ensures var after := TakenFrom(ledger, name, offsets, addr);
      && Kept(ledger, after, if addr < 0 then {} else {Block(addr, name.size)})
      && (addr >= 0 ==> Block(addr, name.size) in after && after[Block(addr, name.size)] == User)
  {
  }

  /** An allocation keeps the ledger sound and takes a block that was in this free list or is new. */
  lemma RefillAndTake(ledger: Ledger, free: FreeLists, next: seq<nat>, name: Name, s: nat, k: nat, addr: int, i: nat)
    requires name in free && s < |next| && (name.size > 0 || k == 0) && Fits(next[s := next[s] + k * name.size])
    requires Fits(next) ==> Sound(ledger, free, next)
    requires var stock := free[name] + Slabs(Address(s, next[s]), name.size, k);
      (addr < 0 <==> stock == []) && (stock != [] ==> i < |stock| && addr == stock[i])
    ensures var offsets := Slabs(Address(s, next[s]), name.size, k);
      var stock := free[name] + offsets;
      && Sound(TakenFrom(ledger, name, offsets, addr),
               free[name := if stock == [] then [] else stock[..i] + stock[i + 1..]],
               next[s := next[s] + k * name.size])
      && (addr >= 0 && Block(addr, name.size) in ledger ==> ledger[Block(addr, name.size)] == List(name))
    ensures addr >= 0 ==> forall z :: Block(0, z) in ledger && z != name.size ==> addr != 0
  {
    hide Fits, Sound, Entered, Address, Kept;
    var offsets := Slabs(Address(s, next[s]), name.size, k);
    var stock := free[name] + offsets;
    FitsBefore(next, s, k * name.size);
    RefillKeepsSound(ledger, free, next, name, s, k);
    if addr >= 0 {
      TakeKeepsSound(Entered(ledger, name, offsets), free[name := stock], next[s := next[s] + k * name.size], name, i);
      if Block(addr, name.size) in ledger {
        EnteredSame(ledger, name, offsets, Block(addr, name.size));
      }
      assert free[name := stock][name := stock[..i] + stock[i + 1..]] == free[name := stock[..i] + stock[i + 1..]];
      TakenKept(ledger, name, offsets, addr);
      NullOfOtherSize(ledger, TakenFrom(ledger, name, offsets, addr), free[name := stock[..i] + stock[i + 1..]],
                      next[s := next[s] + k * name.size], Block(addr, name.size));
    }
  }

  lemma TakenAccounted(ledger: Ledger, name: Name, offsets: seq<nat>, addr: int, next: seq<nat>)
    requires Accounted(Entered(ledger, name, offsets), next)
    ensures Accounted(TakenFrom(ledger, name, offsets, addr), next)
  {
    SameKeysAccounted(Entered(ledger, name, offsets), TakenFrom(ledger, name, offsets, addr), next);
  }

  lemma EnteredSame(ledger: Ledger, name: Name, offsets: seq<nat>, b: Block)
    requires b in ledger
    ensures b in Entered(ledger, name, offsets) && Entered(ledger, name, offsets)[b] == ledger[b]
  {
  }

  // ---- Memory servers ------------------------------------------------------------------------------

  class MemoryServer {
    var nextOffset: nat
    var given: set<nat>

    constructor ()
      ensures nextOffset == 0 && given == {}
    {
      nextOffset, given := 0, {};
    }

    method Allocate(size: nat) returns (offset: nat)
      modifies this
      ensures offset == old(nextOffset) && nextOffset == offset + size && given == old(given) + {offset}
    {
      offset := nextOffset;
      nextOffset := nextOffset + size;
      given := given + {offset};
    }
  }

  /** Servers are asked in turn. */
  class RpcAllocator {
    const servers: seq<MemoryServer>
    var turn: nat
    ghost var next: seq<nat>
    ghost var chunks: seq<Chunk>

    ghost predicate Valid()
      reads this, servers
    {
      && servers != [] && |next| == |servers|
      && (forall i, j :: 0 <= i < j < |servers| ==> servers[i] != servers[j])
      && (forall i :: 0 <= i < |servers| ==> servers[i].nextOffset == next[i])
      && Tiled(chunks, next)
      && |chunks| == turn && InTurn(chunks, |servers|)
    }

    constructor (servers: seq<MemoryServer>)
      requires servers != [] && forall i, j :: 0 <= i < j < |servers| ==> servers[i] != servers[j]
      requires forall i :: 0 <= i < |servers| ==> servers[i].nextOffset == 0
      ensures Valid() && this.servers == servers && turn == 0 && chunks == []
      ensures forall i :: 0 <= i < |next| ==> next[i] == 0
    {
      this.servers, turn, chunks := servers, 0, [];
      next := seq(|servers|, _ => 0);
    }

    /** The server that is asked next. */
    function Upcoming(): (server: nat)
      requires Valid()
      reads this, servers
      ensures server < |next|
    {
      turn % |servers|
    }

    method Allocate(size: nat) returns (addr: nat)
      requires Valid()
      modifies this, servers
      ensures Valid() && turn == old(turn) + 1
      ensures var server := old(turn) % |servers|;
        && next == old(next)[server := old(next)[server] + size]
        && chunks == old(chunks) + [Chunk(server, old(next)[server], size)]
        && addr == Address(server, old(next)[server])
    {
      hide Tiled, InTurn, Address;
      var index := Upcoming();
      turn := turn + 1;
      NextInTurn(chunks, |servers|, next[index], size);
      BumpKeepsTiled(chunks, next, index, size);
      var offset := servers[index].Allocate(size);
      chunks := chunks + [Chunk(index, offset, size)];
      next := next[index := offset + size];
      addr := Address(index, offset);
    }
  }

  // ---- Slab allocators -----------------------------------------------------------------------------

  /** The offsets a chunk is cut into. */
  method Carve(start: nat, size: nat, slab: nat) returns (offsets: seq<nat>)
    requires slab > 0 || size == 0
    ensures forall i :: 0 <= i < |offsets| ==> offsets[i] == start + i * slab
    ensures size <= |offsets| * slab
    ensures offsets != [] ==> (|offsets| - 1) * slab < size
  {
    offsets := [];
    var offset := start;
    while offset < start + size
      invariant offset == start + |offsets| * slab
      invariant forall i :: 0 <= i < |offsets| ==> offsets[i] == start + i * slab
      invariant offsets != [] ==> (|offsets| - 1) * slab < size
      decreases start + size - offset
    {
      offsets := offsets + [offset];
      offset := offset + slab;
    }
  }

  /** The blocks a chunk of `k` slabs is cut into. */
  function Slabs(start: nat, slab: nat, k: nat): (offsets: seq<nat>)
    ensures |offsets| == k && forall i :: 0 <= i < k ==> offsets[i] == start + i * slab
  {
    seq(k, i requires 0 <= i => start + i * slab)
  }

  lemma SlabCount(n: nat, k: nat, slab: nat)
    requires slab > 0 && k * slab <= n * slab && (n > 0 ==> (n - 1) * slab < k * slab)
    ensures n == k
  {
    if n < k {
      Multiples(n + 1, k, slab);
    } else if k < n {
      Multiples(k, n - 1, slab);
    }
  }

  lemma Multiples(a: nat, b: nat, slab: nat)
    requires a <= b
    ensures a * slab <= b * slab
  {
  }

  lemma CarvedSlabs(offsets: seq<nat>, start: nat, slab: nat, k: nat)
    requires slab > 0 && forall i :: 0 <= i < |offsets| ==> offsets[i] == start + i * slab
    requires k * slab <= |offsets| * slab
    requires offsets != [] ==> (|offsets| - 1) * slab < k * slab
    ensures offsets == Slabs(start, slab, k)
  {
    SlabCount(|offsets|, k, slab);
  }

  class SlabAllocator {
    const slabSize: nat
    var numSlabs: nat
    var freeList: seq<nat>
    const allocator: RpcAllocator
    const first: nat                  // slabs asked for at the start
    ghost var growths: nat
    ghost var carved: seq<nat>        // every offset it ever cut from a chunk

    /** Each growth doubles: after `growths` of them `first * (2^(growths+1) - 1)` slabs were carved. */
    ghost predicate Counted()
      reads this`numSlabs, this`growths, this`carved
    {
      && (slabSize > 0 ==> numSlabs == first * Pow2(growths + 1) && |carved| == first * (Pow2(growths + 1) - 1))
      && (slabSize == 0 ==> numSlabs == first && carved == [])
    }

    constructor (slabSize: nat, numSlabs: nat, allocator: RpcAllocator)
      requires allocator.Valid()
      modifies allocator, allocator.servers
      ensures this.slabSize == slabSize && this.allocator == allocator && first == numSlabs && growths == 0
      ensures allocator.Valid() && Counted()
      ensures var k, server := if slabSize == 0 then 0 else numSlabs, old(allocator.Upcoming());
        && allocator.next == old(allocator.next)[server := old(allocator.next)[server] + k * slabSize]
        && freeList == Slabs(Address(server, old(allocator.next)[server]), slabSize, k)
    {
      this.slabSize, this.numSlabs, this.allocator, first := slabSize, numSlabs, allocator, numSlabs;
      freeList, growths, carved := [], 0, [];
      new;
      GetSlabs();
      FirstSlabs(numSlabs);
    }

    /** Asks the servers for as many slabs as it already has and cuts them. */
    method GetSlabs()
      requires allocator.Valid()
      modifies this, allocator, allocator.servers
      ensures allocator.Valid() && growths == old(growths)
      ensures var k, server := if slabSize == 0 then 0 else old(numSlabs), old(allocator.Upcoming());
        && allocator.next == old(allocator.next)[server := old(allocator.next)[server] + k * slabSize]
        && var more := Slabs(Address(server, old(allocator.next)[server]), slabSize, k);
        && freeList == old(freeList) + more && carved == old(carved) + more && numSlabs == old(numSlabs) + k
    {
      var size := numSlabs * slabSize;
      var start := allocator.Allocate(size);
      var offsets := Carve(start, size, slabSize);
      if slabSize > 0 {
        CarvedSlabs(offsets, start, slabSize, numSlabs);
      }
      freeList := freeList + offsets;
      carved := carved + offsets;
      numSlabs := numSlabs + |offsets|;
    }

    lemma SomeSlabs()
      requires Counted()
      ensures slabSize > 0 ==> (numSlabs == 0 <==> first == 0)
    {
    }

    /** Any element: the queue keeps no order between its producers. */
    method TryDequeue() returns (ok: bool, addr: nat, i: nat)
      modifies this`freeList
      ensures ok <==> old(freeList) != []
      ensures !ok ==> freeList == []
      ensures ok ==> i < |old(freeList)| && addr == old(freeList)[i]
      ensures ok ==> freeList == old(freeList)[..i] + old(freeList)[i + 1..]
    {
      ok, addr, i := freeList != [], 0, 0;
      if ok {
        i :| 0 <= i < |freeList|;
        addr := freeList[i];
        freeList := freeList[..i] + freeList[i + 1..];
      }
    }

    /** A dry free list is refilled with as many slabs as were carved so far, plus the first ones. */
    method Allocate() returns (addr: int, i: nat)
      requires allocator.Valid() && Counted()
      modifies this, allocator, allocator.servers
      ensures allocator.Valid() && Counted()
      ensures growths == old(growths) + if old(freeList) == [] && slabSize > 0 then 1 else 0
      ensures var k := if old(freeList) != [] || slabSize == 0 then 0 else old(numSlabs);
              var server := old(allocator.Upcoming());
        && allocator.next == old(allocator.next)[server := old(allocator.next)[server] + k * slabSize]
        && var stock := old(freeList) + Slabs(Address(server, old(allocator.next)[server]), slabSize, k);
        && (addr == -1 <==> stock == [])
        && (stock == [] ==> freeList == [])
        && (stock != [] ==> i < |stock| && addr == stock[i] && freeList == stock[..i] + stock[i + 1..])
    {
      ghost var dry := freeList == [];
      var ok, a, j := TryDequeue();
      if !ok {
        GetSlabs();
        if slabSize > 0 {
          growths := growths + 1;
          Doubling(first, growths);
        }
        ok, a, j := TryDequeue();
      }
      addr, i := if ok then a else -1, j;
      assert !dry ==> 0 * slabSize == 0;
    }

    method Free(addr: nat)
      modifies this`freeList
      ensures freeList == old(freeList) + [addr]
    {
      freeList := freeList + [addr];
    }
  }

  lemma FirstSlabs(first: nat)
    ensures first * Pow2(1) == first + first && first * (Pow2(1) - 1) == first
  {
    assert Pow2(1) == 2;
  }

  lemma Doubling(first: nat, growths: nat)
    requires growths > 0
    ensures first * Pow2(growths) + first * Pow2(growths) == first * Pow2(growths + 1)
    ensures first * (Pow2(growths) - 1) + first * Pow2(growths) == first * (Pow2(growths + 1) - 1)
  {
  }

  // ---- All clients -----------------------------------------------------------------------------------

  datatype Request = Get(name: Name) | Give(name: Name, addr: nat)

  /** Every slab allocator of every client, over the same servers. The ledger says where each block is. */
  class Cluster {
    const rpc: RpcAllocator
    var slabs: map<Name, SlabAllocator>
    ghost var ledger: Ledger

    ghost function Lists(): (lists: FreeLists)
      reads this`slabs, slabs.Values
      ensures lists.Keys == slabs.Keys
    {
      map name | name in slabs :: slabs[name].freeList
    }

    ghost predicate Wired()
      reads this`slabs, slabs.Values
    {
      && (forall name :: name in slabs ==>
            slabs[name].allocator == rpc && slabs[name].slabSize == name.size && slabs[name].Counted())
      && (forall m, n :: m in slabs && n in slabs && m != n ==> slabs[m] != slabs[n])
    }

    ghost predicate Valid()
      reads this, rpc, rpc.servers, slabs.Values
    {
      rpc.Valid() && Wired()
    }

    /** As long as the memory fits, ledger and free lists are sound and cover all memory given out. */
    ghost predicate Sane()
      reads this, rpc, slabs.Values
    {
      Fits(rpc.next) ==> Sound(ledger, Lists(), rpc.next) && Accounted(ledger, rpc.next)
    }

    /** The slab allocator never runs dry. */
    ghost predicate Grows(name: Name)
      reads this`slabs
    {
      name in slabs && name.size > 0 && slabs[name].first > 0
    }

    lemma Known(name: Name)
      requires Wired() && name in slabs
      ensures slabs[name].allocator == rpc && slabs[name].slabSize == name.size && slabs[name].Counted()
      ensures name in Lists() && Lists()[name] == slabs[name].freeList
    {
    }

    lemma HeldApart(held: set<Block>)
      requires Valid() && Sane() && Holds(ledger, held) && Fits(rpc.next)
      ensures forall b, c :: b in held && c in held && b != c ==> ShareNoByte(b, c)
      ensures forall b, n, i :: b in held && n in slabs && 0 <= i < |slabs[n].freeList| ==>
        ShareNoByte(b, Block(slabs[n].freeList[i], n.size))
    {
      hide Sound, Accounted, RpcAllocator.Valid, SlabAllocator.Counted, Fits, ShareNoByte;
      NoByteTwice(ledger, Lists(), rpc.next);
      assert forall n :: n in slabs ==> n in Lists() && Lists()[n] == slabs[n].freeList;
    }

    /** Only the slab allocator `name` has changed. */
    twostate lemma OneChanged(name: Name)
      requires old(Wired()) && name in slabs && slabs == old(slabs) && slabs[name].Counted()
      requires forall a :: a in slabs.Values && a != slabs[name] ==> unchanged(a)
      ensures Wired() && Lists() == old(Lists())[name := slabs[name].freeList]
    {
      hide SlabAllocator.Counted;
      forall n | n in slabs
        ensures slabs[n] in slabs.Values && (n != name ==> unchanged(slabs[n]))
      {
      }
    }

    /** Only the slab allocator `name` is new. */
    twostate lemma OneAdded(name: Name, new slab: SlabAllocator)
      requires old(Wired()) && name !in old(slabs) && slabs == old(slabs)[name := slab]
      requires slab.allocator == rpc && slab.slabSize == name.size && slab.Counted() && !old(allocated(slab))
      requires forall a :: a in old(slabs).Values ==> unchanged(a)
      ensures Wired() && Lists() == old(Lists())[name := slab.freeList]
    {
      hide Wired, SlabAllocator.Counted;
      OneAddedWired(name, slab);
      forall n | n in old(slabs)
        ensures old(slabs)[n] in old(slabs).Values && unchanged(slabs[n])
      {
      }
    }

    twostate lemma OneAddedWired(name: Name, new slab: SlabAllocator)
      requires old(Wired()) && name !in old(slabs) && slabs == old(slabs)[name := slab]
      requires slab.allocator == rpc && slab.slabSize == name.size && slab.Counted() && !old(allocated(slab))
      requires forall a :: a in old(slabs).Values ==> unchanged(a)
      ensures Wired()
    {
      hide SlabAllocator.Counted;
      forall n | n in old(slabs)
        ensures old(slabs)[n] in old(slabs).Values && unchanged(slabs[n]) && slabs[n] != slab
      {
      }
    }

    /** Over servers that have not given out anything yet. */
    constructor (rpc: RpcAllocator)
      requires rpc.Valid() && forall i :: 0 <= i < |rpc.next| ==> rpc.next[i] == 0
      ensures Valid() && Sane() && this.rpc == rpc && slabs == map[] && ledger == map[]
    {
      this.rpc, slabs, ledger := rpc, map[], map[];
    }

    /** A client's slab allocator for one size, with its first slabs. */
    method Add(name: Name, numSlabs: nat)
      requires Valid() && name !in slabs
      modifies this`slabs, this`ledger, rpc, rpc.servers
      ensures Valid() && (old(Sane()) ==> Sane()) && name in slabs && fresh(slabs[name])
      ensures slabs == old(slabs)[name := slabs[name]]
      ensures slabs[name].first == numSlabs && slabs[name].growths == 0
      ensures Kept(old(ledger), ledger, {})
      ensures old(rpc.Upcoming()) == 0 && old(rpc.next)[0] == 0 && name.size > 0 && numSlabs > 0 ==>
        Block(0, name.size) in ledger
    {
      hide Fits, Sound, Accounted, Slabs, Entered, Kept, Address, Pow2, Tiled;
      hide RpcAllocator.Valid, SlabAllocator.Counted, Wired, Lists;
      ghost var next, lists, server := rpc.next, Lists(), rpc.Upcoming();
      label before:
      var slab := new SlabAllocator(name.size, numSlabs, rpc);
      ghost var k := if name.size == 0 then 0 else numSlabs;
      assert forall a :: a in old(slabs).Values ==> old(allocated(a));
      slabs := slabs[name := slab];
      ghost var offsets := Slabs(Address(server, next[server]), name.size, k);
      OneAdded@before(name, slab);
      FirstOffset(ledger, name, server, next[server], k);
      if old(Sane()) && Fits(rpc.next) {
        FitsBefore(next, server, k * name.size);
        NewListKeepsSound(ledger, lists, next, name, server, k);
        GrowthAccounted(ledger, next, name, server, k);
      }
      EnteredKept(ledger, name, offsets);
      ledger := Entered(ledger, name, offsets);
    }

    method Allocate(name: Name) returns (addr: int)
      requires Valid()
      modifies this`ledger, slabs.Values, rpc, rpc.servers
      ensures Valid() && (old(Sane()) ==> Sane())
      ensures addr == -1 <==>
        name !in slabs || (old(slabs[name].freeList) == [] && (name.size == 0 || slabs[name].first == 0))
      ensures addr == -1 ==> Kept(old(ledger), ledger, {})
      ensures addr != -1 ==> addr >= 0 && Kept(old(ledger), ledger, {Block(addr, name.size)})
      ensures addr != -1 ==> Block(addr, name.size) in ledger && ledger[Block(addr, name.size)] == User
      ensures addr != -1 && old(Sane()) && Fits(rpc.next) && Block(addr, name.size) in old(ledger) ==>
        old(ledger)[Block(addr, name.size)] == List(name)
      ensures addr != -1 && old(Sane()) && Fits(rpc.next) ==>
        forall z :: Block(0, z) in old(ledger) && z != name.size ==> addr != 0
    {
      hide Fits, Sound, Accounted, Slabs, Entered, Kept, Address, Pow2, Tiled;
      hide RpcAllocator.Valid, SlabAllocator.Counted, Wired, Lists;
      if name !in slabs {
        KeptAll(ledger);
        return -1;
      }
      var slab := slabs[name];
      Known(name);
      ghost var next, lists, server := rpc.next, Lists(), rpc.Upcoming();
      ghost var k := if slab.freeList != [] || name.size == 0 then 0 else slab.numSlabs;
      ghost var offsets := Slabs(Address(server, next[server]), name.size, k);
      slab.SomeSlabs();
      var at: nat;
      label before:
      addr, at := slab.Allocate();
      OneChanged@before(name);
      ledger := TakenFrom(ledger, name, offsets, addr);
      TakenKept(old(ledger), name, offsets, addr);
      if old(Sane()) && Fits(rpc.next) {
        FitsBefore(next, server, k * name.size);
        RefillAndTake(old(ledger), lists, next, name, server, k, addr, at);
        GrowthAccounted(old(ledger), next, name, server, k);
        TakenAccounted(old(ledger), name, offsets, addr, rpc.next);
      }
    }

    /** A block goes back to the free list of any client that has its size class. Nobody checks that the
        caller holds it: what was promised stays true if and only if it does. */
    method Free(name: Name, addr: nat)
      requires Valid()
      modifies this`ledger, slabs.Values
      ensures Valid()
      ensures name !in slabs ==> ledger == old(ledger) && (old(Sane()) ==> Sane())
      ensures name in slabs ==> ledger == old(ledger)[Block(addr, name.size) := List(name)]
      ensures name in slabs ==> slabs[name].freeList == old(slabs[name].freeList) + [addr]
      ensures name in slabs && old(Sane()) && Fits(rpc.next) ==>
        (Sane() <==> Block(addr, name.size) in old(ledger) && old(ledger)[Block(addr, name.size)] == User)
    {
      hide Fits, Sound, Accounted, RpcAllocator.Valid, SlabAllocator.Counted, Wired, Lists;
      if name in slabs {
        ghost var b := Block(addr, name.size);
        ghost var lists, before := Lists(), ledger;
        Known(name);
        label before:
        slabs[name].Free(addr);
        OneChanged@before(name);
        ledger := ledger[b := List(name)];
        if old(Sane()) && Fits(rpc.next) {
          GiveIffHeld(before, lists, rpc.next, name, addr);
          SameKeysAccounted(before, ledger, rpc.next);
        }
      }
    }

    /** Whatever the clients ask for, in whatever order: the blocks they hold at the end are apart, from
        each other and from everything in a free list, if no server gave out more than its span. */
    method Serve(requests: seq<Request>) returns (held: set<Block>, answers: seq<int>)
      requires Valid() && Sane() && forall b :: b in ledger ==> ledger[b] != User
      modifies this`ledger, slabs.Values, rpc, rpc.servers
      ensures Valid() && Sane() && Holds(ledger, held)
      ensures |answers| == |requests| && held == HeldAfter(requests, answers, slabs.Keys)
      ensures forall i :: 0 <= i < |requests| && requests[i].Get? && Grows(requests[i].name) ==> answers[i] >= 0
      ensures Fits(rpc.next) ==> forall b, c :: b in held && c in held && b != c ==> ShareNoByte(b, c)
      ensures Fits(rpc.next) ==> forall b, n, i :: b in held && n in slabs && 0 <= i < |slabs[n].freeList| ==>
        ShareNoByte(b, Block(slabs[n].freeList[i], n.size))
    {
      hide Fits, Sound, Accounted, RpcAllocator.Valid, SlabAllocator.Counted, Wired, Lists, ShareNoByte;
      held, answers := {}, [];
      for i := 0 to |requests|
        invariant Valid() && Sane() && Holds(ledger, held)
        invariant |answers| == i && held == HeldAfter(requests[..i], answers, slabs.Keys)
        invariant forall j :: 0 <= j < i && requests[j].Get? && Grows(requests[j].name) ==> answers[j] >= 0
      {
        var answer := 0;
        assert requests[..i + 1][..i] == requests[..i];
        match requests[i] {
          case Get(name) =>
            answer := Allocate(name);
            if answer != -1 {
              held := held + {Block(answer, name.size)};
            }
          case Give(name, addr) =>
            if Block(addr, name.size) in held {
              Free(name, addr);
              if name in slabs {
                held := held - {Block(addr, name.size)};
              }
            }
        }
        assert (answers + [answer])[..i] == answers;
        answers := answers + [answer];
      }
      assert requests[..|requests|] == requests;
      if Fits(rpc.next) {
        HeldApart(held);
      }
    }
  }

  /** The blocks that the clients hold after their requests: those handed out and not given back since. */
  function HeldAfter(requests: seq<Request>, answers: seq<int>, names: set<Name>): set<Block>
    requires |answers| == |requests|
  {
    if requests == [] then {} else
      var n := |requests| - 1;
      var held := HeldAfter(requests[..n], answers[..n], names);
      match requests[n]
      case Get(name) => if answers[n] < 0 then held else held + {Block(answers[n], name.size)}
      case Give(name, addr) => if name in names then held - {Block(addr, name.size)} else held
  }

  ghost predicate Holds(ledger: Ledger, held: set<Block>) {
    forall b :: b in held <==> b in ledger && ledger[b] == User
  }

  // ---- A run that overlaps ----------------------------------------------------------------------------

  /** 256 servers, each asked once, the last for one byte more than its span: its last byte has address 0,
      the first byte of the first server. */
  method LastServerSpills() returns (rpc: RpcAllocator, first: nat, last: nat)
    ensures rpc.Valid() && |rpc.next| == SERVERS && !Fits(rpc.next) && !Usable(rpc.chunks, SERVERS)
    ensures first == 0 && ByteAt(Block(last, SPAN + 1), SPAN) == ByteAt(Block(first, 1), 0)
  {
    var servers: seq<MemoryServer> := [];
    for i := 0 to SERVERS
      invariant |servers| == i && (forall j :: 0 <= j < i ==> fresh(servers[j]) && servers[j].nextOffset == 0)
      invariant forall j, k :: 0 <= j < k < i ==> servers[j] != servers[k]
    {
      var s := new MemoryServer();
      servers := servers + [s];
    }
    rpc := new RpcAllocator(servers);
    first := 0;
    for i := 0 to SERVERS - 1
      invariant rpc.Valid() && fresh(rpc) && rpc.servers == servers && rpc.turn == i
      invariant i > 0 ==> first == 0
      invariant forall j :: 0 <= j < SERVERS ==> rpc.next[j] == if j < i then 1 else 0
    {
      var addr := rpc.Allocate(1);
      if i == 0 {
        first := addr;
      }
    }
    last := rpc.Allocate(SPAN + 1);
    assert forall j :: 0 <= j < SERVERS ==> rpc.next[j] == if j < SERVERS - 1 then 1 else SPAN + 1;
    SpilledByte(Chunk(SERVERS - 1, 0, SPAN + 1), SPAN);
    UsableIffFits(rpc.chunks, rpc.next);
  }
}
