/** How an acquire or release is cut into requests: one for each block of a linear range, a single
    one for a 2D range. */
module IncoherentRequests {
  import opened MachineWords
  import opened Addressing

  datatype Address = Lin(s: nat) | TwoD(core: nat, ptr: nat)

  datatype Request = Request(address: Address, bytes: nat, offset: nat)

  function Min(x: nat, y: nat): nat { if x > y then y else x }

  /** The byte `k` bytes further. */
  function Advance(a: Address, k: nat): Address {
    match a
    case Lin(s) => Lin(s + k)
    case TwoD(c, p) => TwoD(c, p + k)
  }

  /** first_byte().block_max() - first_byte(), as a size_t; for a 2D address the difference is
      negative as soon as the pointer exceeds one, and wraps. */
  function ToBlockMax(a: Address): nat {
    match a
    case Lin(s) => BlockMax(s, 1) - s
    case TwoD(c, p) => (TwoDimensional(1, c) - TwoDimensional(p, c)) % TWO64
  }

  /** Ranges the loop is meant for: 2D pointers are no less than 2, and ranges end below 2^48. */
  predicate Sound(a: Address, total: nat) {
    a.TwoD? ==> 2 <= a.ptr && a.ptr + total < TWO48
  }

  lemma BlockMaxDistance(a: Address, total: nat)
    requires Sound(a, total)
    ensures a.Lin? ==> ToBlockMax(a) == BLOCK - a.s % BLOCK
    ensures a.TwoD? ==> total < ToBlockMax(a)
    ensures 0 < ToBlockMax(a)
  {
    if a.TwoD? { assert ToBlockMax(a) == TWO64 + 1 - a.ptr; }
  }

  /** The requests for the bytes from `offset` on, of which the first one is at `a`. */
  ghost function Requests(a: Address, offset: nat, total: nat): seq<Request>
    requires offset <= total && Sound(a, total - offset)
    decreases total - offset
  {
    if offset == total then [] else
      BlockMaxDistance(a, total - offset);
      var bytes := Min(ToBlockMax(a), total - offset);
      [Request(a, bytes, offset)] + Requests(Advance(a, bytes), offset + bytes, total)
  }

  /** num_messages_, as `reset` computes it. */
  function NumMessages(a: Address, total: nat): int {
    match a
    case Lin(s) => if total == 0 then 0 else (BlockMax(s + total - 1, 1) - BlockMin(s)) / BLOCK
    case TwoD(_, _) => if total == 0 then 0 else 1
  }

  lemma BlocksLeft(s: nat, rest: nat, bytes: nat)
    requires 0 < rest && bytes == Min(BLOCK - s % BLOCK, rest)
    ensures (BlockMax(s + rest - 1, 1) - BlockMin(s)) / BLOCK
         == 1 + if bytes == rest then 0 else (BlockMax(s + rest - 1, 1) - BlockMin(s + bytes)) / BLOCK
  {
    var b := s / BLOCK;
    var e := (s + rest - 1) / BLOCK;
    assert BlockMax(s + rest - 1, 1) == BLOCK * e + BLOCK && BlockMin(s) == BLOCK * b;
    if bytes < rest { assert BlockMin(s + bytes) == BLOCK * (b + 1); }
  }

  lemma CountStep(a: Address, rest: nat, bytes: nat)
    requires Sound(a, rest) && 0 < rest && bytes == Min(ToBlockMax(a), rest)
    ensures bytes <= rest && Sound(Advance(a, bytes), rest - bytes)
    ensures NumMessages(a, rest) == 1 + NumMessages(Advance(a, bytes), rest - bytes)
  {
    BlockMaxDistance(a, rest);
    if a.Lin? { BlocksLeft(a.s, rest, bytes); }
  }

  /** The number `reset` computes from the block bounds is the number the loop sends. */
  lemma {:induction false} CountsAgree(a: Address, offset: nat, total: nat)
    requires offset <= total && Sound(a, total - offset)
    ensures |Requests(a, offset, total)| == NumMessages(a, total - offset)
    decreases total - offset
  {
    if offset < total {
      BlockMaxDistance(a, total - offset);
      var bytes := Min(ToBlockMax(a), total - offset);
      CountStep(a, total - offset, bytes);
      CountsAgree(Advance(a, bytes), offset + bytes, total);
    }
  }

  /** One request: its bytes lie where the range has them, and a linear one stays in its block. */
  ghost predicate Fits(r: Request, a: Address, total: nat) {
    && 0 < r.bytes && r.offset + r.bytes <= total
    && r.address == Advance(a, r.offset)
    && (r.address.Lin? ==> r.address.s % BLOCK + r.bytes <= BLOCK)
  }

  /** The requests follow one another without gap or overlap. */
  ghost predicate Tiling(rs: seq<Request>, a: Address, from: nat, total: nat)
    decreases |rs|
  {
    if rs == [] then from == total
    else rs[0].offset == from && Fits(rs[0], a, total) && Tiling(rs[1..], a, from + rs[0].bytes, total)
  }

  lemma {:induction false} RequestsTile(a: Address, offset: nat, total: nat)
    requires offset <= total && Sound(Advance(a, offset), total - offset)
    ensures Tiling(Requests(Advance(a, offset), offset, total), a, offset, total)
    decreases total - offset
  {
    if offset < total {
      var here := Advance(a, offset);
      BlockMaxDistance(here, total - offset);
      var bytes := Min(ToBlockMax(here), total - offset);
      assert Advance(here, bytes) == Advance(a, offset + bytes);
      RequestsTile(a, offset + bytes, total);
    }
  }

  ghost predicate Has(r: Request, x: nat) { r.offset <= x < r.offset + r.bytes }

  /** Every byte of the range is in exactly one request. */
  lemma {:induction false} EveryByteOnce(rs: seq<Request>, a: Address, from: nat, total: nat, x: nat) returns (k: nat)
    requires Tiling(rs, a, from, total) && from <= x < total
    ensures k < |rs| && Has(rs[k], x)
    ensures forall j: nat :: j < |rs| && Has(rs[j], x) ==> j == k
    decreases |rs|
  {
    if x < from + rs[0].bytes {
      k := 0;
      forall j: nat ensures j < |rs| && Has(rs[j], x) ==> j == 0 {
        if 0 < j < |rs| { LaterIsBeyond(rs[1..], a, from + rs[0].bytes, total, j - 1); }
      }
    } else {
      k := EveryByteOnce(rs[1..], a, from + rs[0].bytes, total, x);
      forall j: nat ensures j < |rs| && Has(rs[j], x) ==> j == k + 1 {
        if 0 < j < |rs| { assert rs[j] == rs[1..][j - 1]; }
      }
      k := k + 1;
    }
  }

  lemma {:induction false} LaterIsBeyond(rs: seq<Request>, a: Address, from: nat, total: nat, j: nat)
    requires Tiling(rs, a, from, total) && j < |rs|
    ensures from <= rs[j].offset && Fits(rs[j], a, total)
    decreases j
  {
    if j > 0 { LaterIsBeyond(rs[1..], a, from + rs[0].bytes, total, j - 1); }
  }

  /** What has been sent, with what is still to be sent from `here` on, makes up all requests. */
  ghost predicate SentSoFar(sent: seq<Request>, here: Address, offset: nat, a: Address, total: nat) {
    && Sound(a, total)
    && offset <= total && Sound(here, total - offset)
    && sent + Requests(here, offset, total) == Requests(a, 0, total)
  }

  lemma SendsOn(sent: seq<Request>, here: Address, offset: nat, a: Address, total: nat, bytes: nat)
    requires SentSoFar(sent, here, offset, a, total) && offset < total
    requires bytes == Min(ToBlockMax(here), total - offset)
    ensures 0 < bytes
    ensures SentSoFar(sent + [Request(here, bytes, offset)], Advance(here, bytes), offset + bytes, a, total)
  {
    RequestsFirst(here, offset, total, bytes);
    Regroup(sent, [Request(here, bytes, offset)], Requests(Advance(here, bytes), offset + bytes, total));
  }

  lemma RequestsFirst(here: Address, offset: nat, total: nat, bytes: nat)
    requires offset < total && Sound(here, total - offset)
    requires bytes == Min(ToBlockMax(here), total - offset)
    ensures 0 < bytes && offset + bytes <= total && Sound(Advance(here, bytes), total - (offset + bytes))
    ensures Requests(here, offset, total)
         == [Request(here, bytes, offset)] + Requests(Advance(here, bytes), offset + bytes, total)
  {
    BlockMaxDistance(here, total - offset);
  }

  lemma Regroup(x: seq<Request>, y: seq<Request>, z: seq<Request>)
    ensures x + (y + z) == (x + y) + z
  {
  }

  /** The loop of do_acquire and do_release: what it sends, in order. */
  method SendRequests(a: Address, total: nat) returns (sent: seq<Request>)
    requires Sound(a, total)
    ensures sent == Requests(a, 0, total)
    ensures |sent| == NumMessages(a, total)
    ensures Tiling(sent, a, 0, total)
  {
    var address, offset: nat := a, 0;
    sent := [];
    while offset < total
      invariant SentSoFar(sent, address, offset, a, total)
      decreases total - offset
    {
      var bytes := ToBlockMax(address);
      if bytes > total - offset {
        bytes := total - offset;
      }
      SendsOn(sent, address, offset, a, total, bytes);
      sent := sent + [Request(address, bytes, offset)];
      address := Advance(address, bytes);
      offset := offset + bytes;
    }
    CountsAgree(a, 0, total);
    assert Advance(a, 0) == a;
    RequestsTile(a, 0, total);
  }
}
