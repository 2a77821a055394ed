/** Messages and `zoo_smb_copy_message`. */
module Message {
  import opened Wrappers

  type Byte = bv8

  datatype Header = Header(
    magic: nat, version: nat, messageType: nat, flags: nat, crc32: nat, payloadSize: nat,
    messageId: nat, sequence: nat, timestamp: nat, requestId: nat, sender: string, topic: string)

  const ZERO_HEADER := Header(0, 0, 0, 0, 0, 0, 0, 0, 0, 0, "", "")

  /** A message as a value; no payload is a null payload pointer. */
  datatype Content = Content(header: Header, payload: Option<seq<Byte>>)

  const ZERO_CONTENT := Content(ZERO_HEADER, None)

  /** A present payload buffer holds at least the announced number of bytes. */
  predicate Sound(c: Content) {
    c.payload.Some? ==> c.header.payloadSize <= |c.payload.value|
  }

  /** An announced payload is present. */
  predicate Copyable(c: Content) {
    c.header.payloadSize == 0 || c.payload.Some?
  }

  /** What a successful copy holds: the same header and the announced bytes. */
  function CopyOf(c: Content): Content
    requires Sound(c) && Copyable(c)
  {
    Content(c.header, if c.header.payloadSize == 0 then None else Some(c.payload.value[..c.header.payloadSize]))
  }

  /** Whether a copy onto another block succeeds, and what that block holds afterwards. */
  function Copied(c: Content, memoryAvailable: bool): (bool, Content) {
    if c.header.payloadSize == 0 then (true, Content(c.header, None))
    else if c.payload.None? then (false, Content(c.header, None))
    else if !memoryAvailable then (false, ZERO_CONTENT)
    else (true, Content(c.header, Some(c.payload.value[..Min(c.header.payloadSize, |c.payload.value|)])))
  }

  function Min(a: nat, b: nat): nat {
    if a <= b then a else b
  }

  /** A successful copy is a faithful one, and success needs only the payload and memory for it. */
  lemma CopiedIsTheCopy(c: Content, memoryAvailable: bool)
    requires Sound(c)
    ensures Copied(c, memoryAvailable).0 <==> c.header.payloadSize == 0 || (c.payload.Some? && memoryAvailable)
    ensures Copied(c, memoryAvailable).0 ==> Copyable(c) && Copied(c, memoryAvailable).1 == CopyOf(c)
  {
  }

  /** A copy has every field of the header and exactly the announced bytes, each in its place; no bytes, no payload. */
  lemma CopyIsFaithful(c: Content, i: nat)
    requires Sound(c) && Copyable(c)
    ensures var copy := CopyOf(c);
            && copy.header == c.header
            && (copy.payload.None? <==> c.header.payloadSize == 0)
            && (copy.payload.Some? ==> |copy.payload.value| == c.header.payloadSize)
            && (i < c.header.payloadSize ==> copy.payload.value[i] == c.payload.value[i])
  {
  }

  /** Copying a copy changes nothing, so a message survives any number of copies. */
  lemma CopyIsStable(c: Content)
    requires Sound(c) && Copyable(c)
    ensures Sound(CopyOf(c)) && Copyable(CopyOf(c)) && CopyOf(CopyOf(c)) == CopyOf(c)
  {
    if c.header.payloadSize > 0 {
      var bytes := CopyOf(c).payload.value;
      assert bytes[..c.header.payloadSize] == bytes;
    }
  }

  class MessageBlock {
    var header: Header
    var payload: array?<Byte>

    constructor ()
      ensures header == ZERO_HEADER && payload == null
    {
      header, payload := ZERO_HEADER, null;
    }

    ghost function Value(): Content
      reads this, payload
    {
      Content(header, if payload == null then None else Some(payload[..]))
    }
  }

  /**
   Copies `from` into `to`.  A failed copy leaves `to` without a payload; copying a
   message onto itself clears it.
   */
  method CopyMessage(from: MessageBlock, to: MessageBlock, memoryAvailable: bool) returns (ok: bool)
    requires Sound(from.Value())
    modifies to
    ensures ok <==> from == to || old(from.header).payloadSize == 0 || (old(from.payload) != null && memoryAvailable)
    ensures from != to ==> from.Value() == old(from.Value())
    ensures from != to ==> (ok, to.Value()) == Copied(from.Value(), memoryAvailable)
    ensures ok && from != to ==> Copyable(from.Value()) && to.Value() == CopyOf(from.Value())
    ensures ok && to.payload != null ==> fresh(to.payload)
    ensures !ok ==> to.payload == null
    ensures from == to ==> to.Value() == Content(ZERO_HEADER, None)
  {
    to.header, to.payload := ZERO_HEADER, null;
    to.header := from.header;
    if from.header.payloadSize == 0 {
      to.payload := null;
      return true;
    }
    if from.payload == null {
      return false;
    }
    if !memoryAvailable {
      to.header, to.payload := ZERO_HEADER, null;
      return false;
    }
    var size, source := from.header.payloadSize, from.payload;
    var buffer := new Byte[size];
    forall i | 0 <= i < size {
      buffer[i] := source[i];
    }
    to.payload := buffer;
    assert buffer[..] == source[..size];
    ok := true;
  }
}
