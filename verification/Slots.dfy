/** Network slots (nodemanager/src/networking.rs): address arithmetic in u16 and u8, tap names, and
    the free list with its counter. */
module Slots {
  import opened Protocol
  import opened Decimal

  const U16: nat := 0x1_0000
  const SLOTS: nat := 16384 // ids whose arithmetic fits: 16384 * 4 == U16

  datatype Slot = Slot(ipv4Addr: Ipv4, gateway: Ipv4, tapDevName: string)

  function TapName(id: nat): string {
    "tap" + Print(id)
  }

  /** The slot made for a fresh id; `None` where the checked arithmetic of a debug build panics. */
  function SlotFor(id: nat): Option<Slot> {
    if id * 4 >= U16 || id * 4 + 1 >= U16 then None
    else
      var ipId := id * 4 + 1;
      var firstHalf: byte := ipId / 256;
      var secondHalf: byte := ipId % 256;
      if secondHalf + 1 > 255 then None
      else Some(Slot(Ipv4(172, 16, firstHalf, secondHalf + 1), Ipv4(172, 16, firstHalf, secondHalf), TapName(id)))
  }

  /** The address as a 32-bit number. */
  function Value(ip: Ipv4): nat {
    var a: nat, b: nat, c: nat, d: nat := ip.a, ip.b, ip.c, ip.d;
    a * 0x100_0000 + b * 0x1_0000 + c * 256 + d
  }

  const NETWORK: nat := 172 * 0x100_0000 + 16 * 0x1_0000 // 172.16.0.0

  /** Exactly the ids below 16384 have a slot; in particular the low-byte increment never carries. */
  lemma SlotExistsIff(id: nat)
    ensures SlotFor(id).Some? <==> id < 16384
  {
    if id < SLOTS {
      assert (id * 4 + 1) % 256 % 4 == 1;
    }
  }

  /** The gateway and the guest are the two usable hosts of the /30 block at 172.16.0.0 + 4 * id, and
      that block lies in 172.16.0.0/12, the private range of section 3 of RFC 1918. */
  lemma SlotIsTheUsableHosts(id: nat)
    requires id < SLOTS
    ensures SlotFor(id).Some?
    ensures var slot := SlotFor(id).value;
            var block := NETWORK + 4 * id;
            && block % 4 == 0
            && Value(slot.gateway) == block + 1 && Value(slot.ipv4Addr) == block + 2
            && block / 0x10_0000 == (block + 3) / 0x10_0000 == NETWORK / 0x10_0000
  {
    SlotExistsIff(id);
    HalvesOf(id * 4 + 1);
    var megas: nat := NETWORK / 0x10_0000;
    assert megas * 0x10_0000 == NETWORK;
    assert (megas * 0x10_0000 + 4 * id) / 0x10_0000 == megas;
    assert (megas * 0x10_0000 + (4 * id + 3)) / 0x10_0000 == megas;
  }

  lemma HalvesOf(n: nat)
    requires n < U16
    ensures Value(Ipv4(172, 16, n / 256, n % 256)) == NETWORK + n
    ensures n % 256 < 255 ==> Value(Ipv4(172, 16, n / 256, n % 256 + 1)) == NETWORK + n + 1
  {
    assert n / 256 * 256 + n % 256 == n;
  }

  /** The first slot in print. */
  lemma FirstSlot()
    ensures SlotFor(0).Some?
    ensures Dotted(SlotFor(0).value.gateway) == "172.16.0.1" && Dotted(SlotFor(0).value.ipv4Addr) == "172.16.0.2"
    ensures SlotFor(0).value.tapDevName == "tap0"
  {
    assert Print(172) == "172" by {
      assert Print(17) == "17";
    }
    assert Print(16) == "16" && Print(0) == "0" && Print(1) == "1" && Print(2) == "2";
    assert "172" + ['.'] + ("16" + ['.'] + ("0" + ['.'] + "1")) == "172.16.0.1";
    assert "172" + ['.'] + ("16" + ['.'] + ("0" + ['.'] + "2")) == "172.16.0.2";
    assert "tap" + "0" == "tap0";
  }

  /** Different ids have disjoint /30 blocks, different addresses and different tap names. */
  lemma SlotsDisjoint(i: nat, j: nat)
    requires i < SLOTS && j < SLOTS && i != j
    ensures SlotFor(i).Some? && SlotFor(j).Some?
    ensures Value(SlotFor(i).value.gateway) / 4 != Value(SlotFor(j).value.gateway) / 4
    ensures Value(SlotFor(i).value.ipv4Addr) / 4 != Value(SlotFor(j).value.ipv4Addr) / 4
    ensures SlotFor(i).value.ipv4Addr != SlotFor(j).value.ipv4Addr
    ensures SlotFor(i).value.gateway != SlotFor(j).value.gateway
    ensures SlotFor(i).value.tapDevName != SlotFor(j).value.tapDevName
  {
    SlotIsTheUsableHosts(i);
    SlotIsTheUsableHosts(j);
    assert (NETWORK + 4 * i) / 4 == NETWORK / 4 + i && (NETWORK + 4 * j) / 4 == NETWORK / 4 + j;
    if TapName(i) == TapName(j) {
      assert TapName(i)[3..] == Print(i) && TapName(j)[3..] == Print(j);
      PrintInjective(i, j);
    }
  }

  /** The gateway a release build computes, where the u16 arithmetic wraps around instead. */
  function WrappedGateway(id: nat): Ipv4 {
    var ipId := (id * 4 % U16 + 1) % U16;
    Ipv4(172, 16, ipId / 256, ipId % 256)
  }

  /** With wrap-around, two ids get the same gateway exactly when they agree modulo 16384; below that
      bound the wrapped gateway is the slot's own. */
  lemma WrappedGatewayCollidesIff(i: nat, j: nat)
    ensures WrappedGateway(i) == WrappedGateway(j) <==> i % SLOTS == j % SLOTS
    ensures i < SLOTS ==> SlotFor(i).Some? && WrappedGateway(i) == SlotFor(i).value.gateway
  {
    WrappedValue(i);
    WrappedValue(j);
    SlotExistsIff(i);
    if i % SLOTS == j % SLOTS {
      assert i * 4 % U16 == j * 4 % U16;
    }
  }

  lemma WrappedValue(i: nat)
    ensures Value(WrappedGateway(i)) == NETWORK + i % SLOTS * 4 + 1
    ensures i < SLOTS ==> WrappedGateway(i) == Ipv4(172, 16, (i * 4 + 1) / 256, (i * 4 + 1) % 256)
    ensures i * 4 % U16 == i % SLOTS * 4
  {
    TimesFour(i);
    var n := i % SLOTS * 4 + 1;
    assert (i * 4 % U16 + 1) % U16 == n;
    assert WrappedGateway(i) == Ipv4(172, 16, n / 256, n % 256);
    HalvesOf(n);
  }

  lemma TimesFour(i: nat)
    ensures i * 4 % U16 == i % SLOTS * 4
  {
    var q, r := i / SLOTS, i % SLOTS;
    assert i * 4 == q * U16 + r * 4;
    assert (q * U16 + r * 4) % U16 == r * 4;
  }

  // ---- The free list and its counter ----

  datatype Pool = Pool(recovered: seq<Slot>, nextId: nat)

  /** `next_slot` in a debug build: the slot handed out, or `None` for an overflow panic. */
  function Taken(p: Pool): Option<Slot> {
    if p.recovered != [] then Some(p.recovered[|p.recovered| - 1])
    else if p.nextId == U16 - 1 then None
    else SlotFor(p.nextId)
  }

  /** The allocator afterwards. The counter has already moved when the address arithmetic panics. */
  function AfterTaking(p: Pool): Pool {
    if p.recovered != [] then p.(recovered := p.recovered[..|p.recovered| - 1])
    else if p.nextId == U16 - 1 then p
    else p.(nextId := p.nextId + 1)
  }

  function Returned(p: Pool, slot: Slot): Pool {
    p.(recovered := p.recovered + [slot])
  }

  /** A slot that has just been returned is the next one handed out, and the allocator is then as before. */
  lemma TakeUndoesReturn(p: Pool, slot: Slot)
    ensures Taken(Returned(p, slot)) == Some(slot)
    ensures AfterTaking(Returned(p, slot)) == p
  {
    assert (p.recovered + [slot])[..|p.recovered|] == p.recovered;
  }

  class NetworkManager {
    var recoveredSlots: seq<Slot>
    var nextId: nat

    function Value(): Pool
      reads this
    {
      Pool(recoveredSlots, nextId)
    }

    constructor ()
      ensures Value() == Pool([], 0)
    {
      recoveredSlots, nextId := [], 0;
    }

    method NextSlot() returns (slot: Option<Slot>)
      modifies this
      ensures slot == Taken(old(Value())) && Value() == AfterTaking(old(Value()))
    {
      if recoveredSlots != [] {
        var last := |recoveredSlots| - 1;
        slot, recoveredSlots := Some(recoveredSlots[last]), recoveredSlots[..last];
        return;
      }
      var id := nextId;
      if id == U16 - 1 {
        return None;
      }
      nextId := id + 1;
      slot := SlotFor(id);
    }

    method Reclaim(slot: Slot)
      modifies this
      ensures Value() == Returned(old(Value()), slot)
    {
      recoveredSlots := recoveredSlots + [slot];
    }
  }
}
