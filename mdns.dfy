/**
 * The DNS name codec and the query builders of the mDNS client.
 *
 * A name is encoded as in section 3.1 of RFC 1035: every dot-separated
 * label becomes a length byte followed by its bytes, and a zero byte ends
 * the name. Decoding follows message compression pointers (section 4.1.4
 * of RFC 1035) and writes the labels, joined by dots, into a bounded output
 * buffer.
 *
 * A C string is the sequence of its bytes before the terminating NUL. The
 * decoder's pointer chain is unbounded in the firmware; here the spec
 * function carries a fuel argument and the method is proved for every
 * message whose chain ends.
 */
module Mdns {
  import opened Errno
  import opened Bytes

  type u16 = x: int | 0 <= x < 0x1_0000

  const DOT: byte := 0x2E
  const MAX_LABEL: nat := 63
  /** A length byte with both top bits set starts a compression pointer. */
  const POINTER_TAG: nat := 0xC0

  // ---------------------------------------------------------------------
  // Encoding
  // ---------------------------------------------------------------------

  /** A C string: no NUL byte inside. */
  predicate CString(s: seq<byte>) {
    forall k :: 0 <= k < |s| ==> s[k] != 0
  }

  /** Index `j` starts a label: it is 0 or follows a dot. */
  predicate LabelStart(name: seq<byte>, j: nat) {
    j <= |name| && (j == 0 || name[j - 1] == DOT)
  }

  /** The length of the label that starts at `j`: the bytes up to the next dot or the end. */
  function LabelLen(name: seq<byte>, j: nat): (n: nat)
    requires j <= |name|
    ensures j + n <= |name|
    decreases |name| - j
  {
    if j == |name| || name[j] == DOT then 0 else 1 + LabelLen(name, j + 1)
  }

  /** No label is longer than 63 bytes (section 2.3.4 of RFC 1035). */
  predicate LabelsFit(name: seq<byte>) {
    forall j :: 0 <= j <= |name| && LabelStart(name, j) ==> LabelLen(name, j) <= MAX_LABEL
  }

  /** Every label is non-empty: no leading, trailing or doubled dot, and the name is not empty. */
  predicate NoEmptyLabel(name: seq<byte>) {
    forall j :: 0 <= j <= |name| && LabelStart(name, j) ==> LabelLen(name, j) > 0
  }

  /**
   * Byte `k` of the wire form of a name: the length of the first label,
   * then the name's bytes with every dot replaced by the length of the
   * label after it, then a zero byte.
   */
  function EncodedAt(name: seq<byte>, k: nat): nat
    requires k < |name| + 2
  {
    if k == 0 then LabelLen(name, 0)
    else if k <= |name| then (if name[k - 1] == DOT then LabelLen(name, k) else name[k - 1])
    else 0
  }

  /** The wire form of a name whose labels fit: `|name| + 2` bytes. */
  function Encoded(name: seq<byte>): (e: seq<byte>)
    requires LabelsFit(name)
    ensures |e| == |name| + 2
    ensures forall k :: 0 <= k < |e| ==> e[k] == EncodedAt(name, k)
  {
    seq(|name| + 2, k requires 0 <= k < |name| + 2 => EncodedAt(name, k) as byte)
  }

  /** The label that starts at `li` ends at the first dot or at the end of the name. */
  lemma {:induction false} LabelLenAt(name: seq<byte>, li: nat, i: nat)
    requires li <= i <= |name|
    requires forall k :: li <= k < i ==> name[k] != DOT
    requires i == |name| || name[i] == DOT
    ensures LabelLen(name, li) == i - li
    decreases i - li
  {
    if li < i {
      LabelLenAt(name, li + 1, i);
    }
  }

  /** In the wire form, the label that starts at `li` is its length followed by its own bytes. */
  lemma LabelEncoded(name: seq<byte>, li: nat, i: nat)
    requires li <= i <= |name| && LabelStart(name, li)
    requires forall k :: li <= k < i ==> name[k] != DOT
    requires i == |name| || name[i] == DOT
    ensures EncodedAt(name, li) == i - li
    ensures forall k :: li < k <= i ==> EncodedAt(name, k) == name[k - 1]
  {
    LabelLenAt(name, li, i);
  }

  /** One label's bytes: the length byte at `at`, then the label copied after it. */
  method WriteLabel(buf: array<byte>, at: nat, name: seq<byte>, li: nat, labLen: nat)
    requires at + 1 + labLen <= buf.Length && li + labLen <= |name| && labLen <= MAX_LABEL
    modifies buf
    ensures buf[at] == labLen
    ensures forall k :: at < k <= at + labLen ==> buf[k] == name[li + (k - at - 1)]
    ensures forall k :: 0 <= k < buf.Length && !(at <= k < at + 1 + labLen) ==> buf[k] == old(buf[k])
  {
    buf[at] := labLen;
    forall m | 0 <= m < labLen {
      buf[at + 1 + m] := name[li + m];
    }
  }

  /**
   * `mdns_encode_qname`, writing at `buf[base..]` with room for `buflen`
   * bytes: 0 when the name and its two extra bytes do not fit or a label is
   * longer than 63 bytes; otherwise the encoded name is written and its
   * length, `|name| + 2`, returned. An empty label is not refused: it is
   * written as a zero byte.
   */
  method EncodeQname(buf: array<byte>, base: nat, buflen: nat, name: seq<byte>) returns (n: nat)
    requires base + buflen <= buf.Length && CString(name)
    modifies buf
    ensures n == (if |name| + 2 <= buflen && LabelsFit(name) then |name| + 2 else 0)
    ensures n > 0 ==> buf[base..base + n] == Encoded(name)
    ensures forall k :: 0 <= k < buf.Length && !(base <= k < base + buflen) ==> buf[k] == old(buf[k])
    ensures n > 0 ==> forall k :: 0 <= k < buf.Length && !(base <= k < base + n) ==> buf[k] == old(buf[k])
  {
    var nlen := |name|;
    if nlen + 2 > buflen {
      return 0;
    }
    var bi := 0;
    var li := 0;
    var i := 0;
    while i <= nlen
      invariant 0 <= li <= i <= nlen + 1 && bi == li
      invariant i == nlen + 1 ==> li == nlen + 1
      invariant li == 0 || li > nlen || name[li - 1] == DOT
      invariant forall k :: li <= k < i && k < nlen ==> name[k] != DOT
      invariant forall j :: 0 <= j < li && LabelStart(name, j) ==> LabelLen(name, j) <= MAX_LABEL
      invariant forall k :: 0 <= k < bi ==> buf[base + k] == EncodedAt(name, k)
      invariant forall k :: 0 <= k < buf.Length && !(base <= k < base + bi) ==> buf[k] == old(buf[k])
    {
      var c := if i < nlen then name[i] else 0;
      if c == DOT || c == 0 {
        var labLen := i - li;
        LabelEncoded(name, li, i);
        if labLen > MAX_LABEL || bi + 1 + labLen + 1 > buflen {
          return 0;
        }
        var at := base + bi;
        WriteLabel(buf, at, name, li, labLen);
        forall k | li <= k < li + 1 + labLen
          ensures buf[base + k] == EncodedAt(name, k)
        {
          if k > li {
            assert buf[at + (k - li)] == name[k - 1];
          }
        }
        bi := bi + 1 + labLen;
        li := i + 1;
      }
      i := i + 1;
    }
    buf[base + bi] := 0;
    bi := bi + 1;
    assert LabelsFit(name);
    assert buf[base..base + bi] == Encoded(name);
    return bi;
  }

  // ---------------------------------------------------------------------
  // Decoding
  // ---------------------------------------------------------------------

  /**
   * Where the decoder is: the read offset, the text written so far, and
   * whether a pointer was followed together with the offset just past the
   * first one.
   */
  datatype Cursor = Cursor(off: nat, text: seq<byte>, jumped: bool, jumpEnd: nat)

  /** One pass of the decoder's loop: it goes on from a new cursor, ends the name at an offset, or finds the message malformed. */
  datatype Step = Next(c: Cursor) | Finish(next: nat) | Malformed

  /**
   * How a decode ends: the name with the offset after it and whether a
   * terminating NUL fit; a malformed message; or, with the fuel used up, a
   * pointer chain that has not ended yet.
   */
  datatype Decoding = Decoded(next: nat, text: seq<byte>, terminated: bool) | Invalid | Endless

  /** Where the separating dot goes: as the firmware writes it, or only when a byte is left for the NUL. */
  datatype DotRule = AsWritten | KeepTerminator

  /** The room for text in the output: nothing without an output buffer. */
  function Room(hasOut: bool, outlen: nat): nat {
    if hasOut then outlen else 0
  }

  /** The text after the separating dot, which is written only when the text is not empty and there is room. */
  function WithDot(text: seq<byte>, room: nat, rule: DotRule): seq<byte> {
    var fits := if rule == AsWritten then |text| < room else |text| + 1 < room;
    if |text| > 0 && fits then text + [DOT] else text
  }

  /**
   * The text after one label: the separating dot, then as much of the
   * label as leaves one byte of the room for the NUL.
   */
  function AfterLabel(text: seq<byte>, room: nat, rule: DotRule, lab: seq<byte>): seq<byte> {
    var t := WithDot(text, room, rule);
    var avail := if room > |t| then room - 1 - |t| else 0;
    var copy := if |lab| < avail then |lab| else avail;
    t + lab[..copy]
  }

  /**
   * One pass of the loop of `mdns_decode_name`. Running off the message is
   * malformed. A zero byte ends the name; the offset reported is the one
   * after the first pointer taken, or else after the zero byte. A length
   * byte with both top bits set and the byte after it form a 14-bit pointer
   * that must lie inside the message. Any other length must be at most 63
   * and inside the message, and its label is added to the text.
   */
  function StepAt(msg: seq<byte>, room: nat, rule: DotRule, c: Cursor): Step {
    if c.off >= |msg| then Malformed
    else
      var len := msg[c.off];
      var off := c.off + 1;
      if len == 0 then Finish(if c.jumped then c.jumpEnd else off)
      else if len >= POINTER_TAG then
        if off >= |msg| then Malformed
        else
          var ptr := (len - POINTER_TAG) * 0x100 + msg[off];
          if ptr >= |msg| then Malformed
          else Next(Cursor(ptr, c.text, true, if c.jumped then c.jumpEnd else off + 1))
      else if len > MAX_LABEL || off + len > |msg| then Malformed
      else Next(Cursor(off + len, AfterLabel(c.text, room, rule, msg[off..off + len]), c.jumped, c.jumpEnd))
  }

  /** The decoder's loop run for at most `fuel` passes. */
  function DecodeFrom(msg: seq<byte>, room: nat, rule: DotRule, c: Cursor, fuel: nat): Decoding
    decreases fuel
  {
    if fuel == 0 then Endless
    else match StepAt(msg, room, rule, c)
      case Finish(next) => Decoded(next, c.text, |c.text| < room)
      case Malformed => Invalid
      case Next(c2) => DecodeFrom(msg, room, rule, c2, fuel - 1)
  }

  /** Decoding the name at `off` of `msg` with the given rule for the dot. */
  function DecodeWith(msg: seq<byte>, off: nat, room: nat, rule: DotRule, fuel: nat): (d: Decoding)
    ensures fuel > 0 && off >= |msg| ==> d == Invalid
    ensures d.Decoded? ==> |d.text| <= room && (d.terminated <==> |d.text| < room)
  {
    TextWithinRoom(msg, room, rule, Cursor(off, [], false, 0), fuel);
    DecodeFrom(msg, room, rule, Cursor(off, [], false, 0), fuel)
  }

  /** Decoding the name at `off` of `msg`, as `mdns_decode_name` does it. */
  function Decode(msg: seq<byte>, off: nat, room: nat, fuel: nat): Decoding {
    DecodeWith(msg, off, room, AsWritten, fuel)
  }

  /**
   * One label of `mdns_decode_name` written into the output: the dot when
   * the text is not empty and there is room, then the bytes that fit.
   */
  method AppendLabel(rule: DotRule, out: array?<byte>, outlen: nat, outi: nat, msg: seq<byte>, off: nat, len: nat,
                     ghost text: seq<byte>)
    returns (outi2: nat)
    requires |text| == outi <= Room(out != null, outlen) && off + len <= |msg|
    requires out != null ==> outlen <= out.Length && out[..outi] == text
    modifies out
    ensures var t := AfterLabel(text, Room(out != null, outlen), rule, msg[off..off + len]);
      |t| == outi2 <= Room(out != null, outlen)
      && (out != null ==> out[..outi2] == t && forall k :: outi2 <= k < out.Length ==> out[k] == old(out[k]))
  {
    ghost var room := Room(out != null, outlen);
    outi2 := outi;
    var fits := if rule == AsWritten then outi2 < outlen else outi2 + 1 < outlen;
    if outi2 > 0 && out != null && fits {
      out[outi2] := DOT;
      outi2 := outi2 + 1;
      assert out[..outi2] == text + [DOT];
    }
    assert |WithDot(text, room, rule)| == outi2;
    assert out != null ==> out[..outi2] == WithDot(text, room, rule);
    var avail := if out != null && outlen > outi2 then outlen - 1 - outi2 else 0;
    var copy := if len < avail then len else avail;
    if copy > 0 && out != null {
      CopyBytes(out, outi2, msg, off, copy);
      PrefixOfSlice(msg, off, len, copy);
      assert out[..outi2 + copy] == out[..outi2] + out[outi2..outi2 + copy];
      outi2 := outi2 + copy;
    }
  }

  /** The first `n` bytes of a slice are the shorter slice. */
  lemma PrefixOfSlice(s: seq<byte>, off: nat, len: nat, n: nat)
    requires n <= len && off + len <= |s|
    ensures s[off..off + len][..n] == s[off..off + n]
  {
    ghost var a, b := s[off..off + len][..n], s[off..off + n];
    assert forall k :: 0 <= k < n ==> a[k] == b[k];
  }

  /** `memcpy` of `n` bytes of the message at `off` into the output at `at`. */
  method CopyBytes(out: array<byte>, at: nat, msg: seq<byte>, off: nat, n: nat)
    requires at + n <= out.Length && off + n <= |msg|
    modifies out
    ensures out[at..at + n] == msg[off..off + n]
    ensures out[..at] == old(out[..at])
    ensures forall k :: at + n <= k < out.Length ==> out[k] == old(out[k])
  {
    forall k | 0 <= k < n {
      out[at + k] := msg[off + k];
    }
    ghost var got, want := out[at..at + n], msg[off..off + n];
    assert forall k :: 0 <= k < n ==> got[k] == want[k];
  }

  /**
   * One pass of the loop of `mdns_decode_name`, from a read offset inside
   * the message: `status` is 1 to go on, 0 when the name ended (with
   * the NUL written if it fits) and -EINVAL for a malformed message.
   */
  method DecodeStep(rule: DotRule, msg: seq<byte>, out: array?<byte>, outlen: nat, off: nat, outi: nat, jumped: bool, jumpEnd: nat,
                    ghost text: seq<byte>)
    returns (status: int, off2: nat, outi2: nat, jumped2: bool, jumpEnd2: nat)
    requires off < |msg| && |text| == outi <= Room(out != null, outlen)
    requires out != null ==> outlen <= out.Length && out[..outi] == text
    modifies out
    ensures var s := StepAt(msg, Room(out != null, outlen), rule, Cursor(off, text, jumped, jumpEnd));
      (s.Malformed? <==> status == -EINVAL)
      && (s.Finish? <==> status == 0)
      && (s.Next? <==> status == 1)
      && (s.Finish? ==>
            off2 == s.next && outi2 == outi
            && (out != null && outi < outlen ==> out[outi] == 0)
            && (out != null ==>
                  out[..outi] == text
                  && forall k :: outi + (if outi < outlen then 1 else 0) <= k < out.Length ==> out[k] == old(out[k])))
      && (s.Next? ==>
            s.c.off == off2 && |s.c.text| == outi2 <= Room(out != null, outlen)
            && s.c.jumped == jumped2 && s.c.jumpEnd == jumpEnd2
            && (out != null ==> out[..outi2] == s.c.text && forall k :: outi2 <= k < out.Length ==> out[k] == old(out[k])))
      && (status == -EINVAL && out != null ==> out[..] == old(out[..]))
  {
    jumped2, jumpEnd2, outi2 := jumped, jumpEnd, outi;
    var len := msg[off];
    off2 := off + 1;
    if len == 0 {
      off2 := if jumped then jumpEnd else off2;
      if outi < outlen && out != null {
        out[outi] := 0;
      }
      return 0, off2, outi2, jumped2, jumpEnd2;
    }
    if len >= POINTER_TAG {
      if off2 >= |msg| {
        return -EINVAL, off2, outi2, jumped2, jumpEnd2;
      }
      var ptr := (len - POINTER_TAG) * 0x100 + msg[off2];
      off2 := off2 + 1;
      if ptr >= |msg| {
        return -EINVAL, off2, outi2, jumped2, jumpEnd2;
      }
      if !jumped {
        jumpEnd2 := off2;
        jumped2 := true;
      }
      return 1, ptr, outi2, jumped2, jumpEnd2;
    }
    if len > MAX_LABEL || off2 + len > |msg| {
      return -EINVAL, off2, outi2, jumped2, jumpEnd2;
    }
    outi2 := AppendLabel(rule, out, outlen, outi, msg, off2, len, text);
    return 1, off2 + len, outi2, jumped2, jumpEnd2;
  }

  /**
   * `mdns_decode_name`, with the firmware's dot rule `AsWritten` or the
   * corrected `KeepTerminator`: the name at `offIn` is written into `out` (when
   * there is one, with room for `outlen` bytes) and the offset after it
   * returned with 0; a malformed message gives -EINVAL and leaves the
   * offset. The pointer chain of the message must end, which the ghost
   * `fuel` witnesses.
   */
  method DecodeName(rule: DotRule, msg: seq<byte>, offIn: nat, out: array?<byte>, outlen: nat, ghost fuel: nat)
    returns (ret: int, offOut: nat)
    requires out != null ==> outlen <= out.Length
    requires DecodeWith(msg, offIn, Room(out != null, outlen), rule, fuel) != Endless
    modifies out
    ensures var r := DecodeWith(msg, offIn, Room(out != null, outlen), rule, fuel);
      (r == Invalid ==> ret == -EINVAL && offOut == offIn)
      && (r.Decoded? ==> ret == 0 && offOut == r.next)
    ensures var r := DecodeWith(msg, offIn, Room(out != null, outlen), rule, fuel);
      out != null && r.Decoded? ==>
        |r.text| <= out.Length && out[..|r.text|] == r.text
        && (r.terminated ==> |r.text| < out.Length && out[|r.text|] == 0)
        && forall k :: |r.text| + (if r.terminated then 1 else 0) <= k < out.Length ==> out[k] == old(out[k])
  {
    ghost var room := Room(out != null, outlen);
    ghost var r := DecodeWith(msg, offIn, room, rule, fuel);
    var off: nat := offIn;
    var outi: nat := 0;
    var jumped := false;
    var jumpEnd: nat := 0;
    ghost var text: seq<byte> := [];
    ghost var f := fuel;
    while off < |msg|
      invariant DecodeFrom(msg, room, rule, Cursor(off, text, jumped, jumpEnd), f) == r
      invariant |text| == outi <= room
      invariant out != null ==> out[..outi] == text
      invariant out != null ==> forall k :: outi <= k < out.Length ==> out[k] == old(out[k])
      decreases f
    {
      ghost var s := StepAt(msg, room, rule, Cursor(off, text, jumped, jumpEnd));
      var status;
      status, off, outi, jumped, jumpEnd := DecodeStep(rule, msg, out, outlen, off, outi, jumped, jumpEnd, text);
      if status != 1 {
        return status, if status == 0 then off else offIn;
      }
      text := s.c.text;
      f := f - 1;
    }
    return -EINVAL, offIn;
  }

  // ---------------------------------------------------------------------
  // Properties of the decoder
  // ---------------------------------------------------------------------

  /** More fuel does not change a decode that has ended. */
  lemma {:induction false} FuelMonotone(msg: seq<byte>, room: nat, rule: DotRule, c: Cursor, fuel: nat, more: nat)
    requires DecodeFrom(msg, room, rule, c, fuel) != Endless && fuel <= more
    ensures DecodeFrom(msg, room, rule, c, more) == DecodeFrom(msg, room, rule, c, fuel)
    decreases fuel
  {
    match StepAt(msg, room, rule, c)
    case Finish(_) =>
    case Malformed =>
    case Next(c2) =>
      FuelMonotone(msg, room, rule, c2, fuel - 1, more - 1);
  }

  /** The text never outgrows the room, and it is terminated exactly when it leaves a byte free. */
  lemma {:induction false} TextWithinRoom(msg: seq<byte>, room: nat, rule: DotRule, c: Cursor, fuel: nat)
    requires |c.text| <= room
    ensures var r := DecodeFrom(msg, room, rule, c, fuel);
      r.Decoded? ==> |r.text| <= room && (r.terminated <==> |r.text| < room)
    decreases fuel
  {
    if fuel > 0 {
      match StepAt(msg, room, rule, c)
      case Finish(_) =>
      case Malformed =>
      case Next(c2) =>
        TextWithinRoom(msg, room, rule, c2, fuel - 1);
    }
  }

  /** Once a pointer has been followed, the offset reported at the end is the one after that first pointer. */
  lemma {:induction false} JumpedNext(msg: seq<byte>, room: nat, rule: DotRule, c: Cursor, fuel: nat)
    requires c.jumped
    ensures var r := DecodeFrom(msg, room, rule, c, fuel); r.Decoded? ==> r.next == c.jumpEnd
    decreases fuel
  {
    if fuel > 0 {
      match StepAt(msg, room, rule, c)
      case Finish(_) =>
      case Malformed =>
      case Next(c2) =>
        JumpedNext(msg, room, rule, c2, fuel - 1);
    }
  }

  /**
   * A name that starts with a compression pointer ends, when it decodes, at
   * the offset two bytes on, just past the pointer, wherever the pointer
   * leads.
   */
  lemma PointerFirstNext(msg: seq<byte>, off: nat, room: nat, fuel: nat)
    requires off < |msg| && msg[off] >= POINTER_TAG
    ensures var r := Decode(msg, off, room, fuel); r.Decoded? ==> r.next == off + 2
  {
    if fuel > 0 {
      match StepAt(msg, room, AsWritten, Cursor(off, [], false, 0))
      case Finish(_) =>
      case Malformed =>
      case Next(c2) =>
        JumpedNext(msg, room, AsWritten, c2, fuel - 1);
    }
  }

  /**
   * The malformed messages: the read offset is past the end, a length byte
   * of 64 to 191, a label that runs past the end, a pointer whose second
   * byte is missing, or a pointer that leads outside the message.
   */
  lemma DecodeRejects(msg: seq<byte>, off: nat, room: nat, fuel: nat)
    requires fuel > 0
    requires off >= |msg|
      || (msg[off] > MAX_LABEL && msg[off] < POINTER_TAG)
      || (0 < msg[off] <= MAX_LABEL && off + 1 + msg[off] > |msg|)
      || (msg[off] >= POINTER_TAG && off + 1 >= |msg|)
      || (msg[off] >= POINTER_TAG && off + 1 < |msg| && (msg[off] - POINTER_TAG) * 0x100 + msg[off + 1] >= |msg|)
    ensures Decode(msg, off, room, fuel) == Invalid
  {
  }

  /**
   * A pointer to itself never ends: whatever the fuel, the decoder is
   * still following pointers, so the firmware's loop does not terminate.
   */
  lemma {:induction false} SelfPointerEndless(msg: seq<byte>, p: nat, room: nat, rule: DotRule, text: seq<byte>, jumpEnd: nat, fuel: nat)
    requires p + 1 < |msg| && p < 0x4000
    requires msg[p] == POINTER_TAG + p / 0x100 && msg[p + 1] == p % 0x100
    ensures DecodeFrom(msg, room, rule, Cursor(p, text, true, jumpEnd), fuel) == Endless
    decreases fuel
  {
    if fuel > 0 {
      assert StepAt(msg, room, rule, Cursor(p, text, true, jumpEnd)) == Next(Cursor(p, text, true, jumpEnd));
      SelfPointerEndless(msg, p, room, rule, text, jumpEnd, fuel - 1);
    }
  }

  /** The two-byte message that points at itself decodes to no result for any fuel. */
  lemma CyclicPointerNeverEnds(room: nat, fuel: nat)
    ensures Decode([0xC0, 0x00], 0, room, fuel) == Endless
  {
    if fuel > 0 {
      assert StepAt([0xC0, 0x00], room, AsWritten, Cursor(0, [], false, 0)) == Next(Cursor(0, [], true, 2));
      SelfPointerEndless([0xC0, 0x00], 0, room, AsWritten, [], 2, fuel - 1);
    }
  }

  /**
   * The decoder with the check the firmware lacks: a pointer must lead
   * before `start`, the offset where the current run of labels began, as
   * section 4.1.4 of RFC 1035 has a pointer lead to a prior occurrence of
   * the name. Any other pointer makes the message malformed; every other
   * pass is the firmware's.
   */
  function DecodeBackward(msg: seq<byte>, room: nat, rule: DotRule, c: Cursor, start: nat, fuel: nat): Decoding
    decreases fuel
  {
    if fuel == 0 then Endless
    else match StepAt(msg, room, rule, c)
      case Finish(next) => Decoded(next, c.text, |c.text| < room)
      case Malformed => Invalid
      case Next(c2) =>
        if msg[c.off] < POINTER_TAG then DecodeBackward(msg, room, rule, c2, start, fuel - 1)
        else if c2.off < start then DecodeBackward(msg, room, rule, c2, c2.off, fuel - 1)
        else Invalid
  }

  /** Passes enough for the checked decoder: each run of labels moves forward, and each pointer moves the run's start back. */
  function BackwardFuel(msgLen: nat, start: nat, off: nat): nat {
    start * (msgLen + 2) + (if off <= msgLen then msgLen + 1 - off else 0) + 1
  }

  /** With `BackwardFuel` passes the checked decoder always ends, with a name or a malformed message. */
  lemma {:induction false} BackwardPointersEnd(msg: seq<byte>, room: nat, rule: DotRule, c: Cursor, start: nat, fuel: nat)
    requires fuel >= BackwardFuel(|msg|, start, c.off)
    ensures DecodeBackward(msg, room, rule, c, start, fuel) != Endless
    decreases fuel
  {
    var step := StepAt(msg, room, rule, c);
    if step.Next? {
      var c2 := step.c;
      var K := |msg| + 2;
      assert c.off < |msg| && c2.off <= |msg|;
      if msg[c.off] < POINTER_TAG {
        assert c2.off > c.off;
        BackwardPointersEnd(msg, room, rule, c2, start, fuel - 1);
      } else if c2.off < start {
        RunStartBack(c2.off, start, K);
        BackwardPointersEnd(msg, room, rule, c2, c2.off, fuel - 1);
      }
    }
  }

  /** Moving a run's start back from `start` to `p` frees at least the passes of a whole run. */
  lemma {:induction false} RunStartBack(p: nat, start: nat, k: nat)
    requires p < start
    ensures p * k + k <= start * k
    decreases start - p
  {
    if p + 1 < start {
      RunStartBack(p + 1, start, k);
    }
    assert (p + 1) * k == p * k + k;
  }

  /** Decoding the name at `off` of `msg` with the backward-pointer check: it always ends. */
  function DecodeChecked(msg: seq<byte>, off: nat, room: nat, rule: DotRule): (d: Decoding)
    ensures d != Endless
  {
    BackwardPointersEnd(msg, room, rule, Cursor(off, [], false, 0), off, BackwardFuel(|msg|, off, off));
    DecodeBackward(msg, room, rule, Cursor(off, [], false, 0), off, BackwardFuel(|msg|, off, off))
  }

  /** Whatever the checked decoder decodes, the firmware's loop decodes in the same passes to the same name. */
  lemma {:induction false} BackwardAgrees(msg: seq<byte>, room: nat, rule: DotRule, c: Cursor, start: nat, fuel: nat)
    requires DecodeBackward(msg, room, rule, c, start, fuel).Decoded?
    ensures DecodeFrom(msg, room, rule, c, fuel) == DecodeBackward(msg, room, rule, c, start, fuel)
    decreases fuel
  {
    match StepAt(msg, room, rule, c)
    case Finish(_) =>
    case Malformed =>
    case Next(c2) =>
      if msg[c.off] < POINTER_TAG {
        BackwardAgrees(msg, room, rule, c2, start, fuel - 1);
      } else {
        BackwardAgrees(msg, room, rule, c2, c2.off, fuel - 1);
      }
  }

  /** The self-pointing message `C0 00`, on which the firmware spins, is malformed for the checked decoder. */
  lemma CyclicPointerRejected(room: nat, rule: DotRule)
    ensures DecodeChecked([0xC0, 0x00], 0, room, rule) == Invalid
  {
    assert StepAt([0xC0, 0x00], room, rule, Cursor(0, [], false, 0)) == Next(Cursor(0, [], true, 2));
  }

  /** The bytes of the label that starts at `j` are no dots, and a dot or the end follows them. */
  lemma {:induction false} LabelBytes(name: seq<byte>, j: nat)
    requires j <= |name|
    ensures forall k :: j <= k < j + LabelLen(name, j) ==> name[k] != DOT
    ensures j + LabelLen(name, j) == |name| || name[j + LabelLen(name, j)] == DOT
    decreases |name| - j
  {
    if j < |name| && name[j] != DOT {
      LabelBytes(name, j + 1);
    }
  }

  /** In an encoded name, the bytes of the label at `j` follow its length byte unchanged. */
  lemma EncodedLabel(name: seq<byte>, msg: seq<byte>, off: nat, j: nat)
    requires LabelsFit(name) && LabelStart(name, j)
    requires off + |name| + 2 <= |msg| && msg[off..off + |name| + 2] == Encoded(name)
    ensures msg[off + j] == LabelLen(name, j)
    ensures off + j + 1 + LabelLen(name, j) <= |msg|
    ensures msg[off + j + 1..off + j + 1 + LabelLen(name, j)] == name[j..j + LabelLen(name, j)]
  {
    var len := LabelLen(name, j);
    var e := Encoded(name);
    LabelBytes(name, j);
    assert msg[off + j] == e[j];
    var a := off + j + 1;
    var got := msg[a..a + len];
    var want := name[j..j + len];
    forall k | 0 <= k < len
      ensures got[k] == want[k]
    {
      assert msg[a + k] == msg[off..off + |name| + 2][j + 1 + k] == e[j + 1 + k];
    }
    assert got == want;
  }

  /** A pass over a label byte goes on after the label with the label added to the text. */
  lemma StepLabel(msg: seq<byte>, room: nat, rule: DotRule, c: Cursor)
    requires c.off < |msg| && 0 < msg[c.off] <= MAX_LABEL && c.off + 1 + msg[c.off] <= |msg|
    ensures var len := msg[c.off];
      StepAt(msg, room, rule, c)
      == Next(Cursor(c.off + 1 + len, AfterLabel(c.text, room, rule, msg[c.off + 1..c.off + 1 + len]), c.jumped, c.jumpEnd))
  {
  }

  /** The first label of a name with no empty label is not a lone dot, so a later label starts at 2 or beyond. */
  lemma LaterLabelStart(name: seq<byte>, j: nat)
    requires NoEmptyLabel(name) && LabelStart(name, j) && j > 0
    ensures j >= 2
  {
    assert LabelStart(name, 0) && LabelLen(name, 0) > 0;
  }

  /** The labels of a name before the one that starts at `j`, joined by dots. */
  function Before(name: seq<byte>, j: nat): seq<byte>
    requires j <= |name| + 1
  {
    if j == 0 then [] else name[..j - 1]
  }

  /** Adding the label at `j` to the labels before it gives the name up to the label's end. */
  lemma AddLabel(name: seq<byte>, room: nat, rule: DotRule, j: nat)
    requires NoEmptyLabel(name) && LabelStart(name, j) && room > |name|
    ensures var len := LabelLen(name, j);
      AfterLabel(Before(name, j), room, rule, name[j..j + len]) == name[..j + len]
  {
    var len := LabelLen(name, j);
    var lab := name[j..j + len];
    if j > 0 {
      LaterLabelStart(name, j);
      assert name[..j - 1] + [DOT] == name[..j];
    }
    var t := WithDot(Before(name, j), room, rule);
    assert t == name[..j];
    assert lab[..len] == lab;
    assert AfterLabel(Before(name, j), room, rule, lab) == t + lab;
    assert name[..j] + lab == name[..j + len];
  }

  /**
   * The passes of the decoder over a name's wire form at `off`: from the
   * start of every label it goes on at the start of the next one with that
   * label added to the text, and the final zero byte ends the name.
   */
  ghost predicate DecodesInSteps(msg: seq<byte>, room: nat, rule: DotRule, name: seq<byte>, off: nat) {
    (forall j :: 0 <= j <= |name| && LabelStart(name, j) ==>
      var next := j + LabelLen(name, j) + 1;
      (next == |name| + 1 || LabelStart(name, next))
      && StepAt(msg, room, rule, Cursor(off + j, Before(name, j), false, 0))
         == Next(Cursor(off + next, Before(name, next), false, 0)))
    && StepAt(msg, room, rule, Cursor(off + |name| + 1, Before(name, |name| + 1), false, 0)) == Finish(off + |name| + 2)
  }

  /**
   * Decoding from the label that starts at `j`, with the labels before it
   * already written: the rest of the name follows.
   */
  lemma {:induction false} RoundTripFrom(name: seq<byte>, msg: seq<byte>, off: nat, room: nat, rule: DotRule, j: nat, fuel: nat)
    requires DecodesInSteps(msg, room, rule, name, off)
    requires j == |name| + 1 || LabelStart(name, j)
    requires fuel >= |name| + 2 - j
    ensures DecodeFrom(msg, room, rule, Cursor(off + j, Before(name, j), false, 0), fuel)
            == Decoded(off + |name| + 2, name, true)
    decreases |name| + 2 - j
  {
    if j <= |name| {
      var next := j + LabelLen(name, j) + 1;
      assert StepAt(msg, room, rule, Cursor(off + j, Before(name, j), false, 0))
             == Next(Cursor(off + next, Before(name, next), false, 0));
      RoundTripFrom(name, msg, off, room, rule, next, fuel - 1);
    }
  }

  /** The wire form of a name with non-empty labels that fit decodes pass by pass when the room holds it. */
  lemma EncodedInSteps(name: seq<byte>, msg: seq<byte>, off: nat, room: nat, rule: DotRule)
    requires LabelsFit(name) && NoEmptyLabel(name) && room > |name|
    requires off + |name| + 2 <= |msg| && msg[off..off + |name| + 2] == Encoded(name)
    ensures DecodesInSteps(msg, room, rule, name, off)
  {
    forall j | 0 <= j <= |name| && LabelStart(name, j)
      ensures var next := j + LabelLen(name, j) + 1;
        (next == |name| + 1 || LabelStart(name, next))
        && StepAt(msg, room, rule, Cursor(off + j, Before(name, j), false, 0))
           == Next(Cursor(off + next, Before(name, next), false, 0))
    {
      EncodedStep(name, msg, off, room, rule, j);
      NextLabel(name, j);
    }
    EncodedEnd(name, msg, off, room, rule);
  }

  /** After the label at `j` and the byte after it comes the next label or the end of the wire form. */
  lemma NextLabel(name: seq<byte>, j: nat)
    requires LabelStart(name, j)
    ensures var next := j + LabelLen(name, j) + 1; next == |name| + 1 || LabelStart(name, next)
  {
    LabelBytes(name, j);
  }

  /** The zero byte after an encoded name ends it, with the whole name as the text. */
  lemma EncodedEnd(name: seq<byte>, msg: seq<byte>, off: nat, room: nat, rule: DotRule)
    requires LabelsFit(name) && room > |name|
    requires off + |name| + 2 <= |msg| && msg[off..off + |name| + 2] == Encoded(name)
    ensures StepAt(msg, room, rule, Cursor(off + |name| + 1, Before(name, |name| + 1), false, 0)) == Finish(off + |name| + 2)
  {
    assert msg[off + |name| + 1] == Encoded(name)[|name| + 1] == 0;
  }

  /** One pass over an encoded label goes on at the next label with the name up to this label's end. */
  lemma EncodedStep(name: seq<byte>, msg: seq<byte>, off: nat, room: nat, rule: DotRule, j: nat)
    requires LabelsFit(name) && NoEmptyLabel(name) && room > |name| && LabelStart(name, j)
    requires off + |name| + 2 <= |msg| && msg[off..off + |name| + 2] == Encoded(name)
    ensures var len := LabelLen(name, j);
      StepAt(msg, room, rule, Cursor(off + j, Before(name, j), false, 0))
      == Next(Cursor(off + j + len + 1, name[..j + len], false, 0))
  {
    EncodedLabel(name, msg, off, j);
    AddLabel(name, room, rule, j);
    assert LabelLen(name, j) > 0;
    StepLabel(msg, room, rule, Cursor(off + j, Before(name, j), false, 0));
  }

  /**
   * Round trip: an encoded name whose labels are non-empty and fit decodes,
   * into an output with room for it and its NUL, to the name itself, and
   * the offset moves past its `|name| + 2` bytes; with that much room both
   * dot rules agree.
   */
  lemma RoundTrip(name: seq<byte>, msg: seq<byte>, off: nat, room: nat, rule: DotRule, fuel: nat)
    requires LabelsFit(name) && NoEmptyLabel(name) && room > |name|
    requires off + |name| + 2 <= |msg| && msg[off..off + |name| + 2] == Encoded(name)
    requires fuel >= |name| + 2
    ensures DecodeWith(msg, off, room, rule, fuel) == Decoded(off + |name| + 2, name, true)
  {
    EncodedInSteps(name, msg, off, room, rule);
    RoundTripFrom(name, msg, off, room, rule, 0, fuel);
  }

  // ---------------------------------------------------------------------
  // The separating dot and the terminator
  // ---------------------------------------------------------------------

  /**
   * As written, the dot is placed whenever a byte of the output is left,
   * so it can take the byte meant for the NUL: the labels "ab" and "c"
   * decoded into three bytes give the unterminated text "ab.".
   */
  lemma DotTakesLastByte(fuel: nat)
    requires fuel >= 3
    ensures Decode([2, 0x61, 0x62, 1, 0x63, 0], 0, 3, fuel) == Decoded(6, [0x61, 0x62, DOT], false)
  {
    var msg: seq<byte> := [2, 0x61, 0x62, 1, 0x63, 0];
    var c1 := Cursor(3, [0x61, 0x62], false, 0);
    var c2 := Cursor(5, [0x61, 0x62, DOT], false, 0);
    assert msg[1..3] == [0x61, 0x62];
    assert StepAt(msg, 3, AsWritten, Cursor(0, [], false, 0)) == Next(c1);
    assert msg[4..5] == [0x63];
    assert StepAt(msg, 3, AsWritten, c1) == Next(c2);
    assert StepAt(msg, 3, AsWritten, c2) == Finish(6);
    assert DecodeFrom(msg, 3, AsWritten, c2, fuel - 2) == Decoded(6, [0x61, 0x62, DOT], false);
    assert DecodeFrom(msg, 3, AsWritten, c1, fuel - 1) == Decoded(6, [0x61, 0x62, DOT], false);
  }

  /**
   * With the dot placed only when a byte stays free for the NUL, the text
   * stays shorter than a non-empty room, so every decoded name is
   * terminated.
   */
  lemma {:induction false} KeepTerminatorFrom(msg: seq<byte>, room: nat, c: Cursor, fuel: nat)
    requires |c.text| < room
    ensures var r := DecodeFrom(msg, room, KeepTerminator, c, fuel); r.Decoded? ==> r.terminated && |r.text| < room
    decreases fuel
  {
    if fuel > 0 {
      match StepAt(msg, room, KeepTerminator, c)
      case Finish(_) =>
      case Malformed =>
      case Next(c2) =>
        KeepTerminatorFrom(msg, room, c2, fuel - 1);
    }
  }

  /** The corrected decoder always leaves a terminated name in a non-empty output. */
  lemma KeepTerminatorTerminated(msg: seq<byte>, off: nat, room: nat, fuel: nat)
    requires room > 0
    ensures var r := DecodeWith(msg, off, room, KeepTerminator, fuel); r.Decoded? ==> r.terminated
  {
    KeepTerminatorFrom(msg, room, Cursor(off, [], false, 0), fuel);
  }

  // ---------------------------------------------------------------------
  // Queries
  // ---------------------------------------------------------------------

  /** The size of the query buffer and of the DNS header at its start. */
  const QUERY_BUF: nat := 512
  const HEADER_LEN: nat := 12
  /** The PTR record type, asked for the MQTT service. */
  const TYPE_PTR: u16 := 12
  /** The service browsed for: `_mqtt._tcp.local`. */
  const MQTT_SERVICE: seq<byte> :=
    [0x5F, 0x6D, 0x71, 0x74, 0x74, DOT, 0x5F, 0x74, 0x63, 0x70, DOT, 0x6C, 0x6F, 0x63, 0x61, 0x6C]

  /** The header of a query: every field zero but the big-endian question count of 1. */
  function Header(): (h: seq<byte>)
    ensures |h| == HEADER_LEN
  {
    [0, 0, 0, 0, 0, 1, 0, 0, 0, 0, 0, 0]
  }

  /**
   * A query fits the buffer when the name encodes into the bytes after the
   * header and four bytes are left for the type and the class.
   */
  predicate QueryFits(name: seq<byte>) {
    |name| + 2 <= QUERY_BUF - HEADER_LEN && LabelsFit(name) && HEADER_LEN + |name| + 2 + 4 <= QUERY_BUF
  }

  /**
   * A one-question query: the header, the encoded name, the type
   * big-endian and the class IN with the unicast-response bit set
   * (0x8001, section 5.4 of RFC 6762).
   */
  function QueryBytes(name: seq<byte>, qtype: u16): (q: seq<byte>)
    requires LabelsFit(name)
  {
    Header() + Encoded(name) + [qtype / 0x100, qtype % 0x100, 0x80, 0x01]
  }

  /**
   * `mdns_send_query` without the final `sendto`: the buffer as it would
   * be sent and its length, or -EINVAL when the query does not fit.
   */
  method BuildQuery(name: seq<byte>, qtype: u16) returns (ret: int, buf: array<byte>)
    requires CString(name)
    ensures buf.Length == QUERY_BUF
    ensures ret == -EINVAL <==> !QueryFits(name)
    ensures QueryFits(name) ==>
      ret == |QueryBytes(name, qtype)|
      && buf[..ret] == QueryBytes(name, qtype) && forall k :: ret <= k < QUERY_BUF ==> buf[k] == 0
  {
    buf := new byte[QUERY_BUF](_ => 0);
    buf[5] := 1;
    assert buf[..HEADER_LEN] == Header();
    var off: nat := HEADER_LEN;
    var nsz := EncodeQname(buf, off, QUERY_BUF - off, name);
    if nsz == 0 {
      return -EINVAL, buf;
    }
    off := off + nsz;
    if off + 4 > QUERY_BUF {
      return -EINVAL, buf;
    }
    assert buf[..off] == Header() + Encoded(name) by {
      assert buf[..off] == buf[..HEADER_LEN] + buf[HEADER_LEN..off];
    }
    buf[off] := qtype / 0x100;
    buf[off + 1] := qtype % 0x100;
    buf[off + 2] := 0x80;
    buf[off + 3] := 0x01;
    ret := off + 4;
    assert buf[..ret] == buf[..off] + buf[off..ret];
  }

  /**
   * `mdns_send_ptr_query` without the final `sendto`: the PTR query for
   * the MQTT service, which always fits.
   */
  method BuildPtrQuery() returns (ret: int, buf: array<byte>)
    ensures ret == HEADER_LEN + |MQTT_SERVICE| + 2 + 4 && buf.Length == QUERY_BUF
    ensures buf[..ret] == QueryBytes(MQTT_SERVICE, TYPE_PTR)
  {
    ServiceLabels();
    ret, buf := BuildQuery(MQTT_SERVICE, TYPE_PTR);
  }

  /** The service name has the labels "_mqtt" (5), "_tcp" (4) and "local" (5). */
  lemma ServiceLabels()
    ensures CString(MQTT_SERVICE) && LabelsFit(MQTT_SERVICE) && NoEmptyLabel(MQTT_SERVICE)
    ensures QueryFits(MQTT_SERVICE)
  {
    var n := MQTT_SERVICE;
    LabelLenAt(n, 0, 5);
    LabelLenAt(n, 6, 10);
    LabelLenAt(n, 11, 16);
    forall j | 0 <= j <= |n| && LabelStart(n, j)
      ensures 0 < LabelLen(n, j) <= MAX_LABEL
    {
      assert j == 0 || j == 6 || j == 11;
    }
  }

  /**
   * The layout of a query: its length, the question count in bytes 4 and
   * 5, the type read back big-endian, the class bytes, and the name after
   * the header, which decodes back to itself.
   */
  lemma QueryLayout(name: seq<byte>, qtype: u16, room: nat, fuel: nat)
    requires LabelsFit(name) && NoEmptyLabel(name) && room > |name| && fuel >= |name| + 2
    ensures var q := QueryBytes(name, qtype);
      |q| == HEADER_LEN + |name| + 6
      && (q[4] as int) * 0x100 + q[5] == 1
      && (q[|name| + 14] as int) * 0x100 + q[|name| + 15] == qtype
      && q[|name| + 16] == 0x80 && q[|name| + 17] == 0x01
      && Decode(q, HEADER_LEN, room, fuel) == Decoded(HEADER_LEN + |name| + 2, name, true)
  {
    var q := QueryBytes(name, qtype);
    assert q[HEADER_LEN..HEADER_LEN + |name| + 2] == Encoded(name);
    RoundTrip(name, q, HEADER_LEN, room, AsWritten, fuel);
  }
}
