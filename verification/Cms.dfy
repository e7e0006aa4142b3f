/** `_validate_linux_cms_structure`: the detached SignedData shape required before OpenSSL
    looks at a signature. Grammar: RFC 5652 sections 3, 5.1, 5.2 and 5.3. */
module Cms {
  import opened Commons
  import opened Der

  const SEQUENCE: Byte := 0x30
  const SET: Byte := 0x31
  const INTEGER: Byte := 0x02
  const OID: Byte := 0x06
  const CONTEXT_0: Byte := 0xa0
  const CONTEXT_1: Byte := 0xa1
  const KEY_ID: Byte := 0x80

  const SHA256_OID: Bytes := [0x60, 0x86, 0x48, 0x01, 0x65, 0x03, 0x04, 0x02, 0x01]
  const SIGNED_DATA_OID: Bytes := [0x2a, 0x86, 0x48, 0x86, 0xf7, 0x0d, 0x01, 0x07, 0x02]
  const DATA_OID: Bytes := [0x2a, 0x86, 0x48, 0x86, 0xf7, 0x0d, 0x01, 0x07, 0x01]
  const NULL: Bytes := [0x05, 0x00]

  datatype CmsError =
    | BadDer(error: DerError)
    | NotExactSignedData
    | NotSha256
    | NotOneDigest
    | NotDetached
    | NotOneSigner
    | BadSignerIdentity

  datatype Result<+T> = Success(value: T) | Failure(error: CmsError) {
    predicate IsFailure() { Failure? }
    function PropagateFailure<U>(): Result<U> requires Failure? { Failure(error) }
    function Extract(): T requires Success? { value }
  }

  /** SignerInfo as far as it is constrained: `tail` is everything after the digest algorithm. */
  datatype Signer = Signer(version: Bytes, byKeyId: bool, identity: Bytes, nullParameters: bool, tail: Bytes)

  /** What the accepted messages can differ in. The contents are opaque octets. */
  datatype Message = Message(
    version: Bytes,
    nullParameters: bool,
    certificates: Option<Bytes>,
    crls: Option<Bytes>,
    signer: Signer)

  // ---- the validator -----------------------------------------------------

  function Read(data: Bytes, tag: Byte): Result<(Bytes, Bytes)> {
    match Take(data, tag)
    case Taken(content, rest) => Success((content, rest))
    case Refused(error) => Failure(BadDer(error))
  }

  /** `sha256_algorithm`: whether NULL parameters were spelled out. */
  function ReadSha256(data: Bytes): Result<bool> {
    var (oid, parameters) :- Read(data, OID);
    if oid != SHA256_OID || (parameters != [] && parameters != NULL) then Failure(NotSha256)
    else Success(parameters == NULL)
  }

  /** One round of `for tag in (0xa0, 0xa1)`. */
  function ReadOptional(data: Bytes, tag: Byte): Result<(Option<Bytes>, Bytes)> {
    if data != [] && data[0] == tag then
      var (content, rest) :- Read(data, tag);
      Success((Some(content), rest))
    else Success((None, data))
  }

  function ReadDigests(digests: Bytes): Result<bool> {
    var (algorithm, digests) :- Read(digests, SEQUENCE);
    var nullParameters :- ReadSha256(algorithm);
    if digests != [] then Failure(NotOneDigest) else Success(nullParameters)
  }

  /** The tail of a SignerInfo from its digest algorithm on. */
  function ReadSignerAlgorithm(signer: Bytes): Result<(bool, Bytes)> {
    var (algorithm, tail) :- Read(signer, SEQUENCE);
    var nullParameters :- ReadSha256(algorithm);
    Success((nullParameters, tail))
  }

  function ReadSigner(signer: Bytes): Result<Signer> {
    var (version, signer) :- Read(signer, INTEGER);
    if signer == [] || (signer[0] != SEQUENCE && signer[0] != KEY_ID) then Failure(BadSignerIdentity)
    else
      var byKeyId := signer[0] == KEY_ID;
      var (identity, signer) :- Read(signer, signer[0]);
      var (nullParameters, tail) :- ReadSignerAlgorithm(signer);
      Success(Signer(version, byKeyId, identity, nullParameters, tail))
  }

  function ReadSigners(signed: Bytes): Result<Signer> {
    var (signers, signed) :- Read(signed, SET);
    var (signer, signers) :- Read(signers, SEQUENCE);
    if signed != [] || signers != [] then Failure(NotOneSigner) else ReadSigner(signer)
  }

  /** The tail of a SignedData from its optional fields on: certificates, crls, signer. */
  function ReadOptionals(signed: Bytes): Result<(Option<Bytes>, Option<Bytes>, Signer)> {
    var (certificates, signed) :- ReadOptional(signed, CONTEXT_0);
    var (crls, signed) :- ReadOptional(signed, CONTEXT_1);
    var signer :- ReadSigners(signed);
    Success((certificates, crls, signer))
  }

  /** `encapContentInfo` and what follows it. */
  function ReadContent(signed: Bytes): Result<(Option<Bytes>, Option<Bytes>, Signer)> {
    var (content, signed) :- Read(signed, SEQUENCE);
    var (oid, content) :- Read(content, OID);
    if content != [] || oid != DATA_OID then Failure(NotDetached) else ReadOptionals(signed)
  }

  function ReadSignedData(signed: Bytes): Result<Message> {
    var (version, signed) :- Read(signed, INTEGER);
    var (digests, signed) :- Read(signed, SET);
    var nullParameters :- ReadDigests(digests);
    var (certificates, crls, signer) :- ReadContent(signed);
    Success(Message(version, nullParameters, certificates, crls, signer))
  }

  /** The validator itself. Success carries the parts its locals were bound to on the way. */
  function Validate(signature: Bytes): Result<Message> {
    var (outer, trailing) :- Read(signature, SEQUENCE);
    var (oid, outer) :- Read(outer, OID);
    var (explicit, outer) :- Read(outer, CONTEXT_0);
    var (signed, explicit) :- Read(explicit, SEQUENCE);
    if trailing != [] || outer != [] || explicit != [] || oid != SIGNED_DATA_OID then Failure(NotExactSignedData)
    else ReadSignedData(signed)
  }

  // ---- the grammar, as a printer -----------------------------------------

  /** Encode with the length limit turned into an absent result. */
  function Tlv(tag: Byte, content: Option<Bytes>): Option<Bytes> {
    if content.Some? && |content.value| < LENGTH_LIMIT then Some(Encode(tag, content.value)) else None
  }

  function Cat(a: Option<Bytes>, b: Option<Bytes>): Option<Bytes> {
    if a.Some? && b.Some? then Some(a.value + b.value) else None
  }

  function PrintSha256(nullParameters: bool): Option<Bytes> {
    Cat(Tlv(OID, Some(SHA256_OID)), Some(if nullParameters then NULL else []))
  }

  function PrintOptional(tag: Byte, content: Option<Bytes>): Option<Bytes> {
    if content.None? then Some([]) else Tlv(tag, content)
  }

  function PrintSignerAlgorithm(nullParameters: bool, tail: Bytes): Option<Bytes> {
    Cat(Tlv(SEQUENCE, PrintSha256(nullParameters)), Some(tail))
  }

  function PrintSigner(s: Signer): Option<Bytes> {
    Cat(Tlv(INTEGER, Some(s.version)),
      Cat(Tlv(if s.byKeyId then KEY_ID else SEQUENCE, Some(s.identity)),
        PrintSignerAlgorithm(s.nullParameters, s.tail)))
  }

  function PrintOptionals(certificates: Option<Bytes>, crls: Option<Bytes>, signer: Signer): Option<Bytes> {
    Cat(PrintOptional(CONTEXT_0, certificates),
      Cat(PrintOptional(CONTEXT_1, crls), Tlv(SET, Tlv(SEQUENCE, PrintSigner(signer)))))
  }

  function PrintContent(certificates: Option<Bytes>, crls: Option<Bytes>, signer: Signer): Option<Bytes> {
    Cat(Tlv(SEQUENCE, Tlv(OID, Some(DATA_OID))), PrintOptionals(certificates, crls, signer))
  }

  function PrintSignedData(m: Message): Option<Bytes> {
    Cat(Tlv(INTEGER, Some(m.version)),
      Cat(Tlv(SET, Tlv(SEQUENCE, PrintSha256(m.nullParameters))),
        PrintContent(m.certificates, m.crls, m.signer)))
  }

  /** The DER of a message, or None when some part needs a length of five octets. */
  function Print(m: Message): Option<Bytes> {
    Tlv(SEQUENCE,
      Cat(Tlv(OID, Some(SIGNED_DATA_OID)), Tlv(CONTEXT_0, Tlv(SEQUENCE, PrintSignedData(m)))))
  }

  // ---- reading and printing are inverse, level by level ------------------

  lemma ReadIffTlv(data: Bytes, tag: Byte, content: Bytes, rest: Bytes)
    ensures Read(data, tag) == Success((content, rest)) <==> Cat(Tlv(tag, Some(content)), Some(rest)) == Some(data)
  {
    TakenIffPrinted(data, tag, content, rest);
  }

  /** The same with nothing left over. */
  lemma ReadAllIffTlv(data: Bytes, tag: Byte, content: Bytes)
    ensures Read(data, tag) == Success((content, [])) <==> Tlv(tag, Some(content)) == Some(data)
  {
    ReadIffTlv(data, tag, content, []);
    if Tlv(tag, Some(content)).Some? {
      var tlv := Tlv(tag, Some(content)).value;
      assert tlv + [] == tlv;
    }
  }

  lemma TlvTag(tag: Byte, content: Option<Bytes>)
    ensures Tlv(tag, content).Some? ==> Tlv(tag, content).value != [] && Tlv(tag, content).value[0] == tag
  {
  }

  lemma Sha256Inverse(data: Bytes, nullParameters: bool)
    ensures ReadSha256(data) == Success(nullParameters) <==> PrintSha256(nullParameters) == Some(data)
  {
    hide Take, Encode;
    ReadIffTlv(data, OID, SHA256_OID, if nullParameters then NULL else []);
  }

  lemma DigestsInverse(data: Bytes, nullParameters: bool)
    ensures ReadDigests(data) == Success(nullParameters)
       <==> Tlv(SEQUENCE, PrintSha256(nullParameters)) == Some(data)
  {
    Sha256Printable(nullParameters);
    var algorithm := PrintSha256(nullParameters).value;
    Sha256Inverse(algorithm, nullParameters);
    ReadAllIffTlv(data, SEQUENCE, algorithm);
    if Read(data, SEQUENCE).Success? {
      var (found, rest) := Read(data, SEQUENCE).value;
      Sha256Inverse(found, nullParameters);
    }
  }

  lemma Sha256Printable(nullParameters: bool)
    ensures PrintSha256(nullParameters).Some?
  {
  }

  lemma SignerAlgorithmInverse(data: Bytes, nullParameters: bool, tail: Bytes)
    ensures ReadSignerAlgorithm(data) == Success((nullParameters, tail))
       <==> PrintSignerAlgorithm(nullParameters, tail) == Some(data)
  {
    hide Take, Tlv, ReadSha256, PrintSha256;
    Sha256Printable(nullParameters);
    var algorithm := PrintSha256(nullParameters).value;
    Sha256Inverse(algorithm, nullParameters);
    ReadIffTlv(data, SEQUENCE, algorithm, tail);
    if Read(data, SEQUENCE).Success? {
      var (found, rest) := Read(data, SEQUENCE).value;
      Sha256Inverse(found, nullParameters);
    }
  }

  lemma SignerInverse(data: Bytes, s: Signer)
    ensures ReadSigner(data) == Success(s) <==> PrintSigner(s) == Some(data)
  {
    hide Take, Tlv, ReadSignerAlgorithm, PrintSignerAlgorithm;
    var tag := if s.byKeyId then KEY_ID else SEQUENCE;
    if ReadSigner(data) == Success(s) {
      var rest1 := Read(data, INTEGER).value.1;
      ReadIffTlv(data, INTEGER, s.version, rest1);
      var rest2 := Read(rest1, tag).value.1;
      ReadIffTlv(rest1, tag, s.identity, rest2);
      var (nullParameters, tail) := ReadSignerAlgorithm(rest2).value;
      SignerAlgorithmInverse(rest2, nullParameters, tail);
    }
    if PrintSigner(s) == Some(data) {
      var rest2 := PrintSignerAlgorithm(s.nullParameters, s.tail).value;
      SignerAlgorithmInverse(rest2, s.nullParameters, s.tail);
      var rest1 := Cat(Tlv(tag, Some(s.identity)), Some(rest2)).value;
      ReadIffTlv(rest1, tag, s.identity, rest2);
      TlvTag(tag, Some(s.identity));
      ReadIffTlv(data, INTEGER, s.version, rest1);
    }
  }

  lemma SignersInverse(data: Bytes, s: Signer)
    ensures ReadSigners(data) == Success(s) <==> Tlv(SET, Tlv(SEQUENCE, PrintSigner(s))) == Some(data)
  {
    hide Take, ReadSigner, PrintSigner, Encode;
    if ReadSigners(data) == Success(s) {
      var signers := Read(data, SET).value.0;
      ReadAllIffTlv(data, SET, signers);
      var signer := Read(signers, SEQUENCE).value.0;
      ReadAllIffTlv(signers, SEQUENCE, signer);
      SignerInverse(signer, s);
    }
    if Tlv(SET, Tlv(SEQUENCE, PrintSigner(s))) == Some(data) {
      var signer := PrintSigner(s).value;
      SignerInverse(signer, s);
      var signers := Tlv(SEQUENCE, Some(signer)).value;
      ReadAllIffTlv(signers, SEQUENCE, signer);
      ReadAllIffTlv(data, SET, signers);
    }
  }

  lemma OptionalInverse(data: Bytes, tag: Byte, content: Option<Bytes>, rest: Bytes)
    ensures ReadOptional(data, tag) == Success((content, rest))
       <==> Cat(PrintOptional(tag, content), Some(rest)) == Some(data)
            && (content.None? && rest != [] ==> rest[0] != tag)
  {
    hide Take, Encode;
    match content
    case Some(c) =>
      ReadIffTlv(data, tag, c, rest);
      TlvTag(tag, content);
      if Cat(PrintOptional(tag, content), Some(rest)) == Some(data) {
        assert data[0] == tag;
        assert Read(data,tag) == Success((c, rest));
        assert ReadOptional(data, tag) == Success((content, rest));
      }
      if ReadOptional(data, tag) == Success((content, rest)) {
        assert data != [] && data[0] == tag;
        assert Read(data,tag) == Success((c, rest));
        assert Cat(PrintOptional(tag, content), Some(rest)) == Some(data);
       }
    case None => assert [] + rest == rest;
  }

  lemma OptionalsInverse(data: Bytes, certificates: Option<Bytes>, crls: Option<Bytes>, signer: Signer)
    ensures ReadOptionals(data) == Success((certificates, crls, signer))
       <==> PrintOptionals(certificates, crls, signer) == Some(data)
  {
    hide Take, Tlv, ReadOptional, ReadSigners;
    if ReadOptionals(data) == Success((certificates, crls, signer)) {
      var rest1 := ReadOptional(data, CONTEXT_0).value.1;
      OptionalInverse(data, CONTEXT_0, certificates, rest1);
      var rest2 := ReadOptional(rest1, CONTEXT_1).value.1;
      OptionalInverse(rest1, CONTEXT_1, crls, rest2);
      SignersInverse(rest2, signer);
    }
    if PrintOptionals(certificates, crls, signer) == Some(data) {
      var signers := Tlv(SEQUENCE, PrintSigner(signer));
      var rest2 := Tlv(SET, signers).value;
      SignersInverse(rest2, signer);
      TlvTag(SET, signers);
      var rest1 := Cat(PrintOptional(CONTEXT_1, crls), Some(rest2)).value;
      OptionalInverse(rest1, CONTEXT_1, crls, rest2);
      TlvTag(CONTEXT_1, crls);
      OptionalInverse(data, CONTEXT_0, certificates, rest1);
    }
  }

  lemma DataOidPrintable() returns (content: Bytes)
    ensures Tlv(OID, Some(DATA_OID)) == Some(content) && |content| < LENGTH_LIMIT
    ensures Read(content, OID) == Success((DATA_OID, []))
  {
    content := Tlv(OID, Some(DATA_OID)).value;
    ReadAllIffTlv(content, OID, DATA_OID);
  }

  lemma ContentInverse(data: Bytes, certificates: Option<Bytes>, crls: Option<Bytes>, signer: Signer)
    ensures ReadContent(data) == Success((certificates, crls, signer))
       <==> PrintContent(certificates, crls, signer) == Some(data)
  {
    hide Take, Tlv, ReadOptionals, PrintOptionals;
    var content := DataOidPrintable();
    if ReadContent(data) == Success((certificates, crls, signer)) {
      var (found, rest) := Read(data, SEQUENCE).value;
      ReadAllIffTlv(found, OID, DATA_OID);
      ReadIffTlv(data, SEQUENCE, content, rest);
      OptionalsInverse(rest, certificates, crls, signer);
    }
    if PrintContent(certificates, crls, signer) == Some(data) {
      var rest := PrintOptionals(certificates, crls, signer).value;
      OptionalsInverse(rest, certificates, crls, signer);
      ReadIffTlv(data, SEQUENCE, content, rest);
    }
  }

  lemma SignedDataInverse(data: Bytes, m: Message)
    ensures ReadSignedData(data) == Success(m) <==> PrintSignedData(m) == Some(data)
  {
    hide Take, Encode, ReadDigests, PrintSha256, ReadContent, PrintContent;
    if ReadSignedData(data) == Success(m) {
      var rest1 := Read(data, INTEGER).value.1;
      ReadIffTlv(data, INTEGER, m.version, rest1);
      var (digests, rest2) := Read(rest1, SET).value;
      ReadIffTlv(rest1, SET, digests, rest2);
      DigestsInverse(digests, m.nullParameters);
      var (certificates, crls, signer) := ReadContent(rest2).value;
      ContentInverse(rest2, certificates, crls, signer);
    }
    if PrintSignedData(m) == Some(data) {
      var rest2 := PrintContent(m.certificates, m.crls, m.signer).value;
      ContentInverse(rest2, m.certificates, m.crls, m.signer);
      var digests := Tlv(SEQUENCE, PrintSha256(m.nullParameters)).value;
      DigestsInverse(digests, m.nullParameters);
      var rest1 := Cat(Tlv(SET, Some(digests)), Some(rest2)).value;
      ReadIffTlv(rest1, SET, digests, rest2);
      ReadIffTlv(data, INTEGER, m.version, rest1);
    }
  }

  // ---- main results ------------------------------------------------------

  /** The validator accepts an octet string as m exactly when the grammar prints m as that string. */
  lemma AcceptedIffPrinted(signature: Bytes, m: Message)
    ensures Validate(signature) == Success(m) <==> Print(m) == Some(signature)
  {
    hide Take, Encode, ReadSignedData, PrintSignedData;
    if Validate(signature) == Success(m) {
      var outer := Read(signature, SEQUENCE).value.0;
      ReadAllIffTlv(signature, SEQUENCE, outer);
      var rest := Read(outer, OID).value.1;
      ReadIffTlv(outer, OID, SIGNED_DATA_OID, rest);
      var explicit := Read(rest, CONTEXT_0).value.0;
      ReadAllIffTlv(rest, CONTEXT_0, explicit);
      var signed := Read(explicit, SEQUENCE).value.0;
      ReadAllIffTlv(explicit, SEQUENCE, signed);
      SignedDataInverse(signed, m);
    }
    if Print(m) == Some(signature) {
      var signed := PrintSignedData(m).value;
      SignedDataInverse(signed, m);
      var explicit := Tlv(SEQUENCE, Some(signed)).value;
      ReadAllIffTlv(explicit, SEQUENCE, signed);
      var rest := Tlv(CONTEXT_0, Some(explicit)).value;
      ReadAllIffTlv(rest, CONTEXT_0, explicit);
      var outer := Cat(Tlv(OID, Some(SIGNED_DATA_OID)), Some(rest)).value;
      ReadIffTlv(outer, OID, SIGNED_DATA_OID, rest);
      ReadAllIffTlv(signature, SEQUENCE, outer);
    }
  }

  /** So acceptance is membership in the grammar, and no string has two derivations. */
  lemma AcceptanceIsTheGrammar(signature: Bytes)
    ensures Validate(signature).Success? <==> exists m :: Print(m) == Some(signature)
    ensures forall m, m' :: Print(m) == Some(signature) && Print(m') == Some(signature) ==> m == m'
  {
    hide Validate, Print;
    if Validate(signature).Success? { AcceptedIffPrinted(signature, Validate(signature).value); }
    forall m | Print(m) == Some(signature)
      ensures Validate(signature) == Success(m)
    {
      AcceptedIffPrinted(signature, m);
    }
  }

  /** No octet can be appended to, or cut from, an accepted message. */
  lemma AcceptedIsPrefixFree(signature: Bytes, suffix: Bytes)
    requires Validate(signature).Success? && Validate(signature + suffix).Success?
    ensures suffix == []
  {
    hide Take, Encode, ReadSignedData;
    var outer := Read(signature, SEQUENCE).value.0;
    var outer' := Read(signature + suffix, SEQUENCE).value.0;
    TakenIffPrinted(signature, SEQUENCE, outer, []);
    TakenIffPrinted(signature + suffix, SEQUENCE, outer', []);
    assert Encode(SEQUENCE, outer) + suffix == Encode(SEQUENCE, outer') + [];
    EncodingsAreUnique(SEQUENCE, outer, suffix, SEQUENCE, outer', []);
  }
}
