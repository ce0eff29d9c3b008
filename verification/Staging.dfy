/**
 What a packet meets when it is staged, in bytes: whether there is room, what is cleaned away first, what is
 appended. And the calls of the application: which are accepted, what a broker reads in their packets, and
 under which id.
 */
module Staging {
  import opened Options
  import opened MqttTypes
  import opened FixedHeader
  import opened Packets
  import opened QueueSpec
  import opened Session

  /** The bytes of all queued packets. */
  function Bytes(q: seq<Msg>): nat {
    if q == [] then 0 else Bytes(q[..|q| - 1]) + |q[|q| - 1].image|
  }

  /** The queued packets, n bytes more, and one record for each of them fit the send buffer. */
  predicate HasRoom(cfg: Config, q: seq<Msg>, n: nat) {
    Bytes(q) + n + (|q| + 1) * cfg.recordSize <= cfg.memSize
  }

  lemma {:induction false} OffsetIsBytes(q: seq<Msg>, i: nat)
    requires i <= |q|
    ensures Offset(q, i) == Bytes(q[..i])
  {
    if i > 0 {
      OffsetIsBytes(q, i - 1);
      assert q[..i][..i - 1] == q[..i - 1];
    }
  }

  /** The room offered to a packer is exact: a packet is taken if and only if it and its record fit. */
  lemma FitsExactly(cfg: Config, q: seq<Msg>, n: nat)
    requires n > 0
    ensures Fits(cfg, q, n) <==> HasRoom(cfg, q, n)
  {
    OffsetIsBytes(q, |q|);
    assert q[..|q|] == q;
  }

  /** The state with a new message behind what is left when the first k messages are gone. */
  function Appended(s: State, k: nat, image: bytes, ctype: int, id: uint16): State
    requires k <= |s.queue|
  {
    s.(queue := s.queue[k..] + [Msg(image, Unsent, ctype, id, 0)],
       h := s.h.(base := s.h.base + k, regs := s.h.regs + [Registered(image, ctype, id, |s.h.dispatched|)]))
  }

  /** The messages up to k are COMPLETE, and the next one is not. */
  predicate Spent(q: seq<Msg>, k: nat) {
    && k <= |q| && (forall i :: 0 <= i < k ==> q[i].state == Complete)
    && (k < |q| ==> q[k].state != Complete)
  }

  lemma SpentIsPrefix(q: seq<Msg>, k: nat)
    requires Spent(q, k)
    ensures CompletePrefix(q) == k
  {
  }

  /**
   A packet is appended if it fits. Otherwise the k COMPLETE messages at the front go, and it is appended if it
   fits then; and if it does not, the buffer is full.
   */
  function Pushed(cfg: Config, s: State, k: nat, image: bytes, ctype: int, id: uint16): (State, int)
    requires Spent(s.queue, k)
  {
    if s.error < 0 then (s, s.error)
    else if HasRoom(cfg, s.queue, |image|) then (Appended(s, 0, image, ctype, id), OK)
    else if HasRoom(cfg, s.queue[k..], |image|) then (Appended(s, k, image, ctype, id), OK)
    else (s.(queue := s.queue[k..], error := ERROR_SEND_BUFFER_IS_FULL, h := s.h.(base := s.h.base + k)),
          ERROR_SEND_BUFFER_IS_FULL)
  }

  lemma StageExactly(cfg: Config, s: State, k: nat, p: Packed, ctype: int, id: uint16)
    requires Spent(s.queue, k) && p.Image? && |p.image| > 0
    ensures Stage(cfg, s, p, ctype, id) == Pushed(cfg, s, k, p.image, ctype, id)
  {
    SpentIsPrefix(s.queue, k);
    FitsExactly(cfg, s.queue, |p.image|);
    FitsExactly(cfg, s.queue[k..], |p.image|);
    assert s.queue[0..] == s.queue;
  }

  // ---- Packets of two and four bytes ----

  lemma BareBytes(ctype: nat)
    requires ctype == PINGREQ || ctype == DISCONNECT
    ensures BareImage(ctype).image == [16 * ctype, 0]
  {
    assert EncodeLength(0) == [0];
    assert EncodeHeader(Header(ctype, 0, 0)) == [16 * ctype, 0];
  }

  /** The four bytes of a reply: only PUBREL carries a flag, and the id is big-endian. */
  function ReplyBytes(ctype: nat, id: uint16): bytes
    requires IsPubxxx(ctype)
  {
    [if ctype == PUBACK then 0x40 else if ctype == PUBREC then 0x50 else if ctype == PUBREL then 0x62 else 0x70,
     2, id / 256, id % 256]
  }

  lemma ReplyIs(ctype: nat, id: uint16)
    requires IsPubxxx(ctype)
    ensures PubxxxImage(ctype, id).image == ReplyBytes(ctype, id)
  {
    var flags := if ctype == PUBREL then 2 else 0;
    assert EncodeLength(2) == [2];
    assert EncodeHeader(Header(ctype, flags, 2)) == [16 * ctype + flags, 2];
  }
}
