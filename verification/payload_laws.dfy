/**
 * What the protobuf readers of the handshake accept, said of the list of fields that a message spells: fields with
 * other numbers are skipped, and of two fields with one number the later counts.
 */
module PayloadLaws {
  import opened Bytes
  import opened Octets
  import opened NoisePayload
  import Varint

  // ---------- one field ----------

  /** These octets are a varint of this value, and nothing more. */
  predicate Spells(b: seq<Octet>, v: U64) { Varint.Decode(Vals(b)) == Varint.Done(v, |b|) }

  /** Two varints, for number and wire type and for the length, then the content, then what follows. */
  ghost predicate IsField(b: seq<Octet>, number: U32, content: seq<Octet>, rest: seq<Octet>) {
    exists tag: seq<Octet>, size: seq<Octet>, key: U64 ::
      Shaped(b, tag, size, key, content, rest) && key / 8 % 0x1_0000_0000 == number
  }

  predicate Shaped(b: seq<Octet>, tag: seq<Octet>, size: seq<Octet>, key: U64, content: seq<Octet>, rest: seq<Octet>) {
    && b == tag + (size + (content + rest))
    && Spells(tag, key) && key as int % 8 == 2
    && |content| <= U64_MAX && Spells(size, |content|)
  }

  lemma SpelledIsRead(tag: seq<Octet>, v: U64, rest: seq<Octet>)
    requires Spells(tag, v)
    ensures ReadVarint(tag + rest) == Ok((v, rest))
  {
    ValsConcat(tag, rest);
    Varint.DecodeStable(Vals(tag), Vals(rest));
  }

  lemma ReadIsSpelled(b: seq<Octet>) returns (head: seq<Octet>)
    requires ReadVarint(b).Ok?
    ensures b == head + ReadVarint(b).value.1 && Spells(head, ReadVarint(b).value.0)
  {
    var used := Varint.Decode(Vals(b)).used;
    head := b[..used];
    ValsSlice(b, 0, used);
    assert b[..used] == b[0..used] && Vals(b)[..used] == Vals(b)[0..used];
    Varint.GroupsLocal(Vals(b), used, 0);
  }

  lemma ShapedIsRead(b: seq<Octet>, tag: seq<Octet>, size: seq<Octet>, key: U64, content: seq<Octet>,
                     rest: seq<Octet>, e: Error, e': Error)
    requires Shaped(b, tag, size, key, content, rest)
    ensures ReadField(b, e, e') == Ok((key / 8 % 0x1_0000_0000, content, rest))
  {
    SpelledIsRead(tag, key, size + (content + rest));
    SpelledIsRead(size, |content|, content + rest);
    ReadFieldWhen(b, key, |content|, size + (content + rest), content + rest, e, e');
    assert (content + rest)[..|content|] == content && (content + rest)[|content|..] == rest;
  }

  lemma FieldParts(b: seq<Octet>, e: Error, e': Error)
    requires ReadField(b, e, e').Ok?
    ensures ReadVarint(b).Ok? && ReadVarint(ReadVarint(b).value.1).Ok?
    ensures var (key, afterKey) := ReadVarint(b).value;
      var (size, tail) := ReadVarint(afterKey).value;
      && key as int % 8 == 2 && size <= |tail|
      && ReadField(b, e, e').value == (key / 8 % 0x1_0000_0000, tail[..size], tail[size..])
  {
  }

  lemma ReadIsShaped(b: seq<Octet>, e: Error, e': Error)
    requires ReadField(b, e, e').Ok?
    ensures var (number, content, rest) := ReadField(b, e, e').value;
      IsField(b, number, content, rest)
  {
    FieldParts(b, e, e');
    var (key, afterKey) := ReadVarint(b).value;
    var (length, tail) := ReadVarint(afterKey).value;
    var tag := ReadIsSpelled(b);
    var size := ReadIsSpelled(afterKey);
    SpelledIsShaped(b, tag, size, key, afterKey, length, tail);
  }

  lemma SpelledIsShaped(b: seq<Octet>, tag: seq<Octet>, size: seq<Octet>, key: U64, afterKey: seq<Octet>, length: U64,
                        tail: seq<Octet>)
    requires b == tag + afterKey && afterKey == size + tail && length <= |tail|
    requires Spells(tag, key) && key as int % 8 == 2 && Spells(size, length)
    ensures IsField(b, key / 8 % 0x1_0000_0000, tail[..length], tail[length..])
  {
    var content, rest := tail[..length], tail[length..];
    assert tail == content + rest;
    assert Shaped(b, tag, size, key, content, rest);
  }

  /** A field is read exactly if the buffer begins with one, and nothing else of the buffer matters. */
  lemma FieldMeans(b: seq<Octet>, number: U32, content: seq<Octet>, rest: seq<Octet>, e: Error, e': Error)
    ensures ReadField(b, e, e') == Ok((number, content, rest)) <==> IsField(b, number, content, rest)
  {
    if ReadField(b, e, e').Ok? { ReadIsShaped(b, e, e'); }
    if IsField(b, number, content, rest) {
      var tag, size, key: U64 :| Shaped(b, tag, size, key, content, rest) && key / 8 % 0x1_0000_0000 == number;
      ShapedIsRead(b, tag, size, key, content, rest, e, e');
    }
  }

  // ---------- lists of fields ----------

  datatype Field = Field(number: U32, content: seq<Octet>)

  /** The fields that a message consists of, if it consists of length-delimited fields. */
  function FieldsOf(b: seq<Octet>): Option<seq<Field>>
    decreases |b|
  {
    if b == [] then Some([])
    else
      match ReadField(b, InvalidPayload, InvalidPayload)
      case Err(_) => None
      case Ok((number, content, rest)) =>
        match FieldsOf(rest)
        case None => None
        case Some(more) => Some([Field(number, content)] + more)
  }

  lemma AnyError(b: seq<Octet>, e: Error, e': Error)
    ensures ReadField(b, e, e').Ok? <==> ReadField(b, InvalidPayload, InvalidPayload).Ok?
    ensures ReadField(b, e, e').Ok? ==> ReadField(b, e, e').value == ReadField(b, InvalidPayload, InvalidPayload).value
  {
  }

  /** The last field of a number. */
  function LastOf(fields: seq<Field>, number: U32): Option<seq<Octet>> {
    if fields == [] then None
    else
      var n := |fields| - 1;
      if fields[n].number == number then Some(fields[n].content) else LastOf(fields[..n], number)
  }

  lemma {:induction false} LastIsThere(fields: seq<Field>, number: U32)
    ensures LastOf(fields, number).Some? ==> Field(number, LastOf(fields, number).value) in fields
    decreases |fields|
  {
    if fields == [] {
    } else if fields[|fields| - 1].number != number {
      LastIsThere(fields[..|fields| - 1], number);
    }
  }

  lemma {:induction false} LastOfCons(f: Field, more: seq<Field>, number: U32)
    ensures LastOf([f] + more, number)
      == if LastOf(more, number).Some? then LastOf(more, number)
         else if f.number == number then Some(f.content) else None
    decreases |more|
  {
    if more == [] {
      assert [f] + more == [f];
      assert [f][..0] == [];
    } else {
      var n := |more| - 1;
      assert ([f] + more)[n + 1] == more[n] && ([f] + more)[..n + 1] == [f] + more[..n];
      LastOfCons(f, more[..n], number);
    }
  }

  /** The contents of the fields of a number, in order. */
  function AllOf(fields: seq<Field>, number: U32): seq<seq<Octet>> {
    if fields == [] then []
    else (if fields[0].number == number then [fields[0].content] else []) + AllOf(fields[1..], number)
  }

  // ---------- the muxer list ----------

  /** The names are the contents of the fields numbered 2; a message that is not a list of fields is refused. */
  lemma {:induction false} ExtensionsMean(b: seq<Octet>, before: seq<seq<Octet>>)
    ensures ParseExtensions(b, before).Ok? <==> FieldsOf(b).Some?
    ensures FieldsOf(b).Some? ==> ParseExtensions(b, before) == Ok(before + AllOf(FieldsOf(b).value, 2))
    decreases |b|
  {
    if b == [] {
      assert before + [] == before;
    } else {
      AnyError(b, UnsupportedExtension, InvalidExtension);
      var field := ReadField(b, UnsupportedExtension, InvalidExtension);
      if field.Ok? {
        var (number, content, rest) := field.value;
        ExtensionsMean(rest, if number == 2 then before + [content] else before);
        if FieldsOf(rest).Some? { AllOfCons(Field(number, content), FieldsOf(rest).value, before); }
      }
    }
  }

  lemma AllOfCons(f: Field, more: seq<Field>, before: seq<seq<Octet>>)
    ensures before + AllOf([f] + more, 2)
      == (if f.number == 2 then before + [f.content] else before) + AllOf(more, 2)
  {
    assert ([f] + more)[1..] == more;
    Assoc(before, [f.content], AllOf(more, 2));
    assert [] + AllOf(more, 2) == AllOf(more, 2);
  }

  // ---------- the payload ----------

  predicate ExtensionsParse(fields: seq<Field>) {
    forall f :: f in fields && f.number == 4 ==> FieldsOf(f.content).Some?
  }

  function Or(last: Option<seq<Octet>>, otherwise: seq<Octet>): seq<Octet> {
    if last.Some? then last.value else otherwise
  }

  /** The muxer names of the last field numbered 4. */
  function MuxersOf(fields: seq<Field>, otherwise: seq<seq<Octet>>): seq<seq<Octet>> {
    match LastOf(fields, 4)
    case None => otherwise
    case Some(content) => if FieldsOf(content).Some? then AllOf(FieldsOf(content).value, 2) else otherwise
  }

  function Merged(fields: seq<Field>, p: Payload): Payload {
    Payload(Or(LastOf(fields, 1), p.identityKey), Or(LastOf(fields, 2), p.signature), MuxersOf(fields, p.muxers))
  }

  predicate Acceptable(fields: seq<Field>, p: Payload) {
    ExtensionsParse(fields) && Merged(fields, p).identityKey != [] && Merged(fields, p).signature != []
  }

  lemma TakeFieldMeans(p: Payload, f: Field)
    ensures TakeField(p, f.number, f.content).Ok? <==> (f.number == 4 ==> FieldsOf(f.content).Some?)
    ensures TakeField(p, f.number, f.content).Ok? ==> TakeField(p, f.number, f.content).value == Merged([f], p)
  {
    assert [f][..0] == [];
    assert LastOf([], 1) == LastOf([], 2) == LastOf([], 4) == None;
    if f.number == 4 {
      ExtensionsMean(f.content, []);
      if FieldsOf(f.content).Some? {
        assert [] + AllOf(FieldsOf(f.content).value, 2) == AllOf(FieldsOf(f.content).value, 2);
      }
    }
  }

  lemma MergedCons(f: Field, more: seq<Field>, p: Payload)
    requires f.number == 4 ==> FieldsOf(f.content).Some?
    requires ExtensionsParse(more)
    ensures Merged([f] + more, p) == Merged(more, Merged([f], p))
  {
    LastOfCons(f, more, 1);
    LastOfCons(f, more, 2);
    LastOfCons(f, more, 4);
    LastIsThere(more, 4);
    assert [f][..0] == [];
    assert LastOf([], 1) == LastOf([], 2) == LastOf([], 4) == None;
  }

  /** Which payloads are read, and as what: of each known number the last field, whatever else there is. */
  lemma {:induction false} PayloadMeans(b: seq<Octet>, p: Payload)
    ensures ParsePayload(b, p).Ok? <==> FieldsOf(b).Some? && Acceptable(FieldsOf(b).value, p)
    ensures ParsePayload(b, p).Ok? ==> ParsePayload(b, p).value == Merged(FieldsOf(b).value, p)
    decreases |b|
  {
    if b == [] {
      assert LastOf([], 1) == LastOf([], 2) == LastOf([], 4) == None;
    } else {
      var field := ReadField(b, InvalidPayload, InvalidPayload);
      if field.Ok? {
        var (number, content, rest) := field.value;
        var f := Field(number, content);
        TakeFieldMeans(p, f);
        if TakeField(p, number, content).Ok? {
          PayloadMeans(rest, Merged([f], p));
          if FieldsOf(rest).Some? { AcceptableCons(f, FieldsOf(rest).value, p); }
        } else if FieldsOf(rest).Some? {
          assert f in FieldsOf(b).value;
        }
      }
    }
  }

  lemma AcceptableCons(f: Field, more: seq<Field>, p: Payload)
    requires f.number == 4 ==> FieldsOf(f.content).Some?
    ensures Acceptable([f] + more, p) <==> Acceptable(more, Merged([f], p))
    ensures Acceptable(more, Merged([f], p)) ==> Merged([f] + more, p) == Merged(more, Merged([f], p))
  {
    assert ExtensionsParse([f] + more) <==> ExtensionsParse(more) by {
      forall g | g in more ensures g in [f] + more { }
    }
    if ExtensionsParse(more) { MergedCons(f, more, p); }
  }

  // ---------- the identity key ----------

  datatype Entry = KeyType(value: U64) | Key(content: seq<Octet>)

  /** The entries of a key message: a varint numbered 1 or 32 octets numbered 2, nothing else. */
  function EntriesOf(b: seq<Octet>): Option<seq<Entry>>
    decreases |b|
  {
    if b == [] then Some([])
    else
      var first := FirstEntry(b);
      if first.None? then None
      else
        match EntriesOf(first.value.1)
        case None => None
        case Some(more) => Some([first.value.0] + more)
  }

  function FirstEntry(b: seq<Octet>): (r: Option<(Entry, seq<Octet>)>)
    ensures r.Some? ==> |r.value.1| < |b|
  {
    match ReadVarint(b)
    case Err(_) => None
    case Ok((tag, afterTag)) =>
      if ReadField(b, InvalidPublicKey, InvalidPublicKey).Ok? then
        var field := ReadField(b, InvalidPublicKey, InvalidPublicKey).value;
        if field.0 == 2 && |field.1| == 32 then Some((Key(field.1), field.2)) else None
      else if tag as int % 8 == 0 && tag / 8 % 0x1_0000_0000 == 1 && ReadVarint(afterTag).Ok? then
        Some((KeyType(ReadVarint(afterTag).value.0), ReadVarint(afterTag).value.1))
      else None
  }

  function LastType(entries: seq<Entry>): Option<U64> {
    if entries == [] then None
    else
      var n := |entries| - 1;
      if entries[n].KeyType? then Some(entries[n].value) else LastType(entries[..n])
  }

  function LastKey(entries: seq<Entry>): Option<seq<Octet>> {
    if entries == [] then None
    else
      var n := |entries| - 1;
      if entries[n].Key? then Some(entries[n].content) else LastKey(entries[..n])
  }

  lemma {:induction false} LastCons(e: Entry, more: seq<Entry>)
    ensures LastType([e] + more)
      == if LastType(more).Some? then LastType(more) else if e.KeyType? then Some(e.value) else None
    ensures LastKey([e] + more)
      == if LastKey(more).Some? then LastKey(more) else if e.Key? then Some(e.content) else None
    decreases |more|
  {
    if more == [] {
      assert [e] + more == [e];
      assert [e][..0] == [];
      assert LastType([]).None? && LastKey([]).None?;
    } else {
      var n := |more| - 1;
      assert ([e] + more)[n + 1] == more[n] && ([e] + more)[..n + 1] == [e] + more[..n];
      LastCons(e, more[..n]);
    }
  }

  predicate IsKey(entries: seq<Entry>, keyType: Option<U64>, key: Option<seq<Octet>>, result: seq<Octet>) {
    && (if LastType(entries).Some? then LastType(entries) else keyType) == Some(1)
    && (if LastKey(entries).Some? then LastKey(entries) else key) == Some(result)
  }

  lemma FirstEntryIsTaken(b: seq<Octet>, keyType: Option<U64>, key: Option<seq<Octet>>)
    requires b != [] && (key.Some? ==> |key.value| == 32)
    ensures FirstEntry(b).None? ==> ParsePublicKey(b, keyType, key).Err?
    ensures FirstEntry(b).Some? ==>
      var (entry, rest) := FirstEntry(b).value;
      (entry.Key? ==> |entry.content| == 32)
      && ParsePublicKey(b, keyType, key)
        == ParsePublicKey(rest, if entry.KeyType? then Some(entry.value) else keyType,
                          if entry.Key? then Some(entry.content) else key)
  {
  }

  /** A key is read exactly from a message of such entries whose last type is Ed25519, and it is its last key. */
  lemma {:induction false} PublicKeyMeans(b: seq<Octet>, keyType: Option<U64>, key: Option<seq<Octet>>,
                                          result: seq<Octet>)
    requires key.Some? ==> |key.value| == 32
    ensures ParsePublicKey(b, keyType, key) == Ok(result)
      <==> EntriesOf(b).Some? && IsKey(EntriesOf(b).value, keyType, key, result)
    decreases |b|
  {
    if b == [] {
      assert LastType([]).None? && LastKey([]).None?;
    } else {
      FirstEntryIsTaken(b, keyType, key);
      if FirstEntry(b).Some? {
        var (entry, rest) := FirstEntry(b).value;
        PublicKeyMeans(rest, if entry.KeyType? then Some(entry.value) else keyType,
                       if entry.Key? then Some(entry.content) else key, result);
        if EntriesOf(rest).Some? { LastCons(entry, EntriesOf(rest).value); }
      }
    }
  }

  // ---------- what is written ----------

  /** One field in front of others. */
  lemma FieldsOfBytes(number: nat, content: seq<Octet>, rest: seq<Octet>)
    requires number < 0x1000_0000 && Fits(content)
    ensures match FieldsOf(rest)
      case None => FieldsOf(BytesField(number, content) + rest).None?
      case Some(more) => FieldsOf(BytesField(number, content) + rest) == Some([Field(number, content)] + more)
  {
    ReadFieldOfBytes(number, content, rest, InvalidPayload, InvalidPayload);
  }

  function MuxerFields(muxers: seq<seq<Octet>>): seq<Field> {
    seq(|muxers|, i requires 0 <= i < |muxers| => Field(2, muxers[i]))
  }

  /** The list of muxers is written as fields numbered 2, one a name, in order. */
  lemma {:induction false} ExtensionFields(muxers: seq<seq<Octet>>)
    requires forall m :: m in muxers ==> Fits(m)
    ensures FieldsOf(ExtensionsMessage(muxers)) == Some(MuxerFields(muxers))
  {
    if muxers == [] {
    } else {
      ExtensionFields(muxers[1..]);
      FieldsOfBytes(2, muxers[0], ExtensionsMessage(muxers[1..]));
      assert MuxerFields(muxers) == [Field(2, muxers[0])] + MuxerFields(muxers[1..]);
    }
  }

  lemma NoFields(rest: seq<Octet>)
    requires rest == []
    ensures FieldsOf(rest) == Some([])
  {
  }

  lemma LastPart(muxers: seq<seq<Octet>>, last: seq<Octet>)
    requires MuxersFit(muxers)
    requires last == if ExtensionsMessage(muxers) == [] then [] else BytesField(4, ExtensionsMessage(muxers))
    ensures FieldsOf(last) == Some(if muxers == [] then [] else [Field(4, ExtensionsMessage(muxers))])
  {
    if muxers == [] {
      NoFields(last);
    } else {
      NoFields([]);
      FieldsOfBytes(4, ExtensionsMessage(muxers), []);
      assert last + [] == last && [Field(4, ExtensionsMessage(muxers))] + [] == [Field(4, ExtensionsMessage(muxers))];
    }
  }

  /** A payload is written as key, signature and, unless there are none, muxers: fields 1, 2 and 4, in this order. */
  lemma HandshakeFields(identity: seq<Octet>, staticKey: seq<Octet>, muxers: seq<seq<Octet>>)
    requires |identity| == 32 && MuxersFit(muxers)
    ensures var signature := Sign(identity, Lits(SIGNATURE_PREFIX) + staticKey);
      FieldsOf(HandshakeMessage(identity, staticKey, muxers))
        == Some([Field(1, PublicKeyMessage(identity)), Field(2, signature)]
                + if muxers == [] then [] else [Field(4, ExtensionsMessage(muxers))])
  {
    var key, signature := PublicKeyMessage(identity), Sign(identity, SignatureMessage(staticKey));
    var extensions := ExtensionsMessage(muxers);
    var last := if extensions == [] then [] else BytesField(4, extensions);
    var fields := if muxers == [] then [] else [Field(4, extensions)];
    PublicKeyMessageFits(identity);
    assert HandshakeMessage(identity, staticKey, muxers) == BytesField(1, key) + (BytesField(2, signature) + last);
    LastPart(muxers, last);
    FieldsOfBytes(2, signature, last);
    FieldsOfBytes(1, key, BytesField(2, signature) + last);
    assert [Field(1, key)] + ([Field(2, signature)] + fields) == [Field(1, key), Field(2, signature)] + fields;
  }

  // ---------- whom a payload names ----------

  /** The octets are a key message for exactly this Ed25519 key. */
  predicate NamesKey(b: seq<Octet>, key: seq<Octet>) {
    EntriesOf(b).Some? && IsKey(EntriesOf(b).value, None, None, key)
  }

  /** The fields name this peer, and carry its signature of this static key. */
  predicate Proves(fields: seq<Field>, staticKey: seq<Octet>, peer: seq<Octet>) {
    && LastOf(fields, 1).Some? && NamesKey(LastOf(fields, 1).value, peer)
    && LastOf(fields, 2).Some? && |LastOf(fields, 2).value| >= SIGNATURE
    && LastOf(fields, 2).value[..SIGNATURE] == Sign(peer, Lits(SIGNATURE_PREFIX) + staticKey)
  }

  lemma {:induction false} EmptyNamesNobody(peer: seq<Octet>)
    ensures !NamesKey([], peer)
  {
    assert EntriesOf([]) == Some([]);
    assert LastType([]).None?;
  }

  /**
   * A payload is believed exactly if it is empty, and then it names nobody, or if it is a list of fields that proves a
   * peer for this static key; the muxer names are then those of the last list in it.
   */
  lemma RemoteMeans(b: seq<Octet>, staticKey: seq<Octet>, remote: Remote)
    ensures VerifyRemote(b, staticKey) == Ok(remote) <==>
      if b == [] then remote == Remote(None, [])
      else
        && FieldsOf(b).Some? && ExtensionsParse(FieldsOf(b).value)
        && remote.peer.Some? && Proves(FieldsOf(b).value, staticKey, remote.peer.value)
        && remote.muxers == MuxersOf(FieldsOf(b).value, [])
  {
    if b != [] {
      PayloadMeans(b, NO_PAYLOAD);
      if FieldsOf(b).Some? && ExtensionsParse(FieldsOf(b).value) {
        var fields := FieldsOf(b).value;
        var p := Merged(fields, NO_PAYLOAD);
        if remote.peer.Some? {
          EmptyNamesNobody(remote.peer.value);
          PublicKeyMeans(p.identityKey, None, None, remote.peer.value);
        }
        VerifiedIsProved(p, staticKey);
      }
    }
  }

  lemma VerifiedIsProved(p: Payload, staticKey: seq<Octet>)
    ensures VerifyPayload(p, staticKey).Ok? ==>
      var peer := VerifyPayload(p, staticKey).value;
      NamesKey(p.identityKey, peer) && |p.signature| >= SIGNATURE
      && p.signature[..SIGNATURE] == Sign(peer, Lits(SIGNATURE_PREFIX) + staticKey)
  {
    var key := ParsePublicKey(p.identityKey, None, None);
    if key.Ok? { PublicKeyMeans(p.identityKey, None, None, key.value); }
  }
}
