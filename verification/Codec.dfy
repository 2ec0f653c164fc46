/** The transaction wire format: a length-prefixed printer, its parser, and the signing hash. */
module Codec {
  import opened Bytes

  /** A transaction's wire fields. */
  datatype Transaction = Transaction(
    nonce: UInt64, sender: Bytestring, recipient: Bytestring, value: int,
    gasLimit: UInt64, gasPrice: UInt64, lane: Byte,
    encryptedData: Bytestring, data: Bytestring, signature: Bytestring)

  /** What a receiver gets: the fields, the hash computed from them, and where reading stopped. */
  datatype Received = Received(tx: Transaction, hash: Digest, consumed: nat)

  /** A digest stands for the text it was taken of: the hash is taken to be injective. */
  datatype Digest = Sha256(preimage: Bytestring)

  datatype Result<+T> = Success(value: T) | ShortRead(field: string) {
    predicate IsFailure() {
      ShortRead?
    }

    function PropagateFailure<U>(): Result<U>
      requires ShortRead?
    {
      ShortRead(field)
    }

    function Extract(): T
      requires Success?
    {
      value
    }
  }

  /** The fields as they lie on the wire, the value still as bytes: first who pays whom, then how
      it is to be executed. */
  datatype Payment = Payment(nonce: UInt64, sender: Bytestring, recipient: Bytestring, valueBytes: Bytestring)

  datatype Execution = Execution(
    gasLimit: UInt64, gasPrice: UInt64, lane: Byte,
    encryptedData: Bytestring, data: Bytestring, signature: Bytestring)

  datatype Wire = Wire(payment: Payment, execution: Execution)

  function ToWire(t: Transaction): Wire {
    Wire(Payment(t.nonce, t.sender, t.recipient, Magnitude(Abs(t.value))),
         Execution(t.gasLimit, t.gasPrice, t.lane, t.encryptedData, t.data, t.signature))
  }

  function FromWire(w: Wire): Transaction {
    Transaction(w.payment.nonce, w.payment.sender, w.payment.recipient, Number(w.payment.valueBytes),
                w.execution.gasLimit, w.execution.gasPrice, w.execution.lane,
                w.execution.encryptedData, w.execution.data, w.execution.signature)
  }

  // ----- printing

  /** A field behind its own length, kept to width bytes. */
  function Counted(b: Bytestring, width: nat): (r: Bytestring)
    ensures |r| == width + |b|
  {
    BigEndian(|b|, width) + b
  }

  function PrintPayment(p: Payment, rest: Bytestring): Bytestring {
    BigEndian(p.nonce, 8) + (Counted(p.sender, 2) + (Counted(p.recipient, 2) + (Counted(p.valueBytes, 2) + rest)))
  }

  function PrintPayload(e: Execution, rest: Bytestring): Bytestring {
    [e.lane] + (Counted(e.encryptedData, 4) + (Counted(e.data, 4) + (Counted(e.signature, 2) + rest)))
  }

  function PrintExecution(e: Execution, rest: Bytestring): Bytestring {
    BigEndian(e.gasLimit, 8) + (BigEndian(e.gasPrice, 8) + PrintPayload(e, rest))
  }

  /** The wire fields followed by whatever comes after them. */
  function Print(w: Wire, rest: Bytestring): Bytestring {
    PrintPayment(w.payment, PrintExecution(w.execution, rest))
  }

  method SerializeTx(tx: Transaction) returns (buf: Bytestring)
    ensures buf == Print(ToWire(tx), [])
  {
    hide BigEndian, Magnitude;
    var valBytes := Magnitude(Abs(tx.value));
    buf := [];
    buf := buf + BigEndian(tx.nonce, 8);
    buf := buf + BigEndian(|tx.sender|, 2);
    buf := buf + tx.sender;
    buf := buf + BigEndian(|tx.recipient|, 2);
    buf := buf + tx.recipient;
    buf := buf + BigEndian(|valBytes|, 2);
    buf := buf + valBytes;
    ghost var payment := buf;
    assert payment == PrintPayment(ToWire(tx).payment, []);
    buf := buf + BigEndian(tx.gasLimit, 8);
    buf := buf + BigEndian(tx.gasPrice, 8);
    buf := buf + [tx.lane];
    buf := buf + BigEndian(|tx.encryptedData|, 4);
    buf := buf + tx.encryptedData;
    buf := buf + BigEndian(|tx.data|, 4);
    buf := buf + tx.data;
    buf := buf + BigEndian(|tx.signature|, 2);
    buf := buf + tx.signature;
    assert buf == payment + PrintExecution(ToWire(tx).execution, []);
    PaymentThen(ToWire(tx).payment, PrintExecution(ToWire(tx).execution, []));
  }

  lemma PaymentThen(p: Payment, rest: Bytestring)
    ensures PrintPayment(p, rest) == PrintPayment(p, []) + rest
  {
  }

  /** Printing in front of something appends it. */
  lemma PrintThen(w: Wire, rest: Bytestring)
    ensures Print(w, rest) == Print(w, []) + rest
  {
  }

  // ----- parsing

  datatype Piece = Piece(bytes: Bytestring, rest: Bytestring)

  function Take(s: Bytestring, n: nat, field: string): (r: Result<Piece>)
    ensures r.Success? ==> |r.value.rest| <= |s|
  {
    if n > |s| then ShortRead(field) else Success(Piece(s[..n], s[n..]))
  }

  function TakeCounted(s: Bytestring, width: nat, lengthField: string, field: string): (r: Result<Piece>)
    ensures r.Success? ==> |r.value.rest| <= |s|
  {
    var length :- Take(s, width, lengthField);
    Take(length.rest, Number(length.bytes), field)
  }

  function TakeUInt64(s: Bytestring, field: string): (r: Result<Piece>)
    ensures r.Success? ==> |r.value.rest| <= |s| && |r.value.bytes| == 8 && Number(r.value.bytes) < TWO_TO_64
  {
    var piece :- Take(s, 8, field);
    NumberFits(piece.bytes);
    PowersOf256();
    Success(piece)
  }

  datatype ParsedPayment = ParsedPayment(payment: Payment, rest: Bytestring)

  function ParsePayment(s: Bytestring): (r: Result<ParsedPayment>)
    ensures r.Success? ==> |r.value.rest| <= |s|
  {
    var nonce :- TakeUInt64(s, "nonce");
    var sender :- TakeCounted(nonce.rest, 2, "fromLen", "from");
    var recipient :- TakeCounted(sender.rest, 2, "toLen", "to");
    var value :- TakeCounted(recipient.rest, 2, "valueLen", "value");
    Success(ParsedPayment(Payment(Number(nonce.bytes), sender.bytes, recipient.bytes, value.bytes), value.rest))
  }

  datatype ParsedExecution = ParsedExecution(execution: Execution, rest: Bytestring)

  /** What follows the two gas numbers. */
  function ParsePayload(s: Bytestring, gasLimit: UInt64, gasPrice: UInt64): (r: Result<ParsedExecution>)
    ensures r.Success? ==> |r.value.rest| <= |s|
  {
    var lane :- Take(s, 1, "lane");
    var encrypted :- TakeCounted(lane.rest, 4, "encDataLen", "encrypted data");
    var data :- TakeCounted(encrypted.rest, 4, "dataLen", "data");
    var signature :- TakeCounted(data.rest, 2, "sigLen", "signature");
    Success(ParsedExecution(
      Execution(gasLimit, gasPrice, lane.bytes[0], encrypted.bytes, data.bytes, signature.bytes), signature.rest))
  }

  function ParseExecution(s: Bytestring): (r: Result<ParsedExecution>)
    ensures r.Success? ==> |r.value.rest| <= |s|
  {
    var gasLimit :- TakeUInt64(s, "gasLimit");
    var gasPrice :- TakeUInt64(gasLimit.rest, "gasPrice");
    ParsePayload(gasPrice.rest, Number(gasLimit.bytes), Number(gasPrice.bytes))
  }

  datatype Parsed = Parsed(wire: Wire, rest: Bytestring)

  function Parse(s: Bytestring): (r: Result<Parsed>)
    ensures r.Success? ==> |r.value.rest| <= |s|
  {
    var payment :- ParsePayment(s);
    var execution :- ParseExecution(payment.rest);
    Success(Parsed(Wire(payment.payment, execution.execution), execution.rest))
  }

  // ----- printing and parsing are inverse

  /** A length fits the prefix that has to carry it. */
  predicate Fits(b: Bytestring, width: nat) {
    |b| < Pow256(width)
  }

  predicate WireFits(w: Wire) {
    && Fits(w.payment.sender, 2) && Fits(w.payment.recipient, 2) && Fits(w.payment.valueBytes, 2)
    && Fits(w.execution.encryptedData, 4) && Fits(w.execution.data, 4) && Fits(w.execution.signature, 2)
  }

  lemma ReadBack(b: Bytestring, rest: Bytestring, field: string)
    ensures Take(b + rest, |b|, field) == Success(Piece(b, rest))
  {
  }

  lemma ReadCountedBack(b: Bytestring, width: nat, rest: Bytestring, lengthField: string, field: string)
    requires Fits(b, width)
    ensures TakeCounted(Counted(b, width) + rest, width, lengthField, field) == Success(Piece(b, rest))
  {
    assert Counted(b, width) + rest == BigEndian(|b|, width) + (b + rest);
    ReadBack(BigEndian(|b|, width), b + rest, lengthField);
    NumberOfBigEndian(|b|, width);
    ReadBack(b, rest, field);
  }

  lemma ReadUInt64Back(v: UInt64, rest: Bytestring, field: string)
    ensures TakeUInt64(BigEndian(v, 8) + rest, field) == Success(Piece(BigEndian(v, 8), rest))
    ensures Number(BigEndian(v, 8)) == v
  {
    ReadBack(BigEndian(v, 8), rest, field);
    NumberOfBigEndian(v, 8);
    PowersOf256();
  }

  lemma PaymentBack(p: Payment, rest: Bytestring)
    requires Fits(p.sender, 2) && Fits(p.recipient, 2) && Fits(p.valueBytes, 2)
    ensures ParsePayment(PrintPayment(p, rest)) == Success(ParsedPayment(p, rest))
  {
    hide BigEndian, Number, Counted, TakeCounted, TakeUInt64;
    var s3 := Counted(p.valueBytes, 2) + rest;
    var s2 := Counted(p.recipient, 2) + s3;
    var s1 := Counted(p.sender, 2) + s2;
    ReadUInt64Back(p.nonce, s1, "nonce");
    ReadCountedBack(p.sender, 2, s2, "fromLen", "from");
    ReadCountedBack(p.recipient, 2, s3, "toLen", "to");
    ReadCountedBack(p.valueBytes, 2, rest, "valueLen", "value");
  }

  lemma ExecutionBack(e: Execution, rest: Bytestring)
    requires Fits(e.encryptedData, 4) && Fits(e.data, 4) && Fits(e.signature, 2)
    ensures ParseExecution(PrintExecution(e, rest)) == Success(ParsedExecution(e, rest))
  {
    hide BigEndian, Number, Counted, TakeCounted, TakeUInt64, Take;
    var s5 := Counted(e.signature, 2) + rest;
    var s4 := Counted(e.data, 4) + s5;
    var s3 := Counted(e.encryptedData, 4) + s4;
    var s2 := [e.lane] + s3;
    var s1 := BigEndian(e.gasPrice, 8) + s2;
    ReadUInt64Back(e.gasLimit, s1, "gasLimit");
    ReadUInt64Back(e.gasPrice, s2, "gasPrice");
    ReadBack([e.lane], s3, "lane");
    ReadCountedBack(e.encryptedData, 4, s4, "encDataLen", "encrypted data");
    ReadCountedBack(e.data, 4, s5, "dataLen", "data");
    ReadCountedBack(e.signature, 2, rest, "sigLen", "signature");
  }

  /** Parsing undoes printing and leaves the rest, whatever it is. */
  lemma ParsePrint(w: Wire, rest: Bytestring)
    requires WireFits(w)
    ensures Parse(Print(w, rest)) == Success(Parsed(w, rest))
  {
    hide PrintPayment, PrintExecution, ParsePayment, ParseExecution;
    PaymentBack(w.payment, PrintExecution(w.execution, rest));
    ExecutionBack(w.execution, rest);
  }

  lemma CountedRead(s: Bytestring, width: nat, lengthField: string, field: string)
    ensures var r := TakeCounted(s, width, lengthField, field);
            r.Success? ==> Fits(r.value.bytes, width) && s == Counted(r.value.bytes, width) + r.value.rest
  {
    var r := TakeCounted(s, width, lengthField, field);
    if r.Success? {
      NumberFits(s[..width]);
      BigEndianOfNumber(s[..width]);
      assert s == s[..width] + s[width..];
    }
  }

  lemma UInt64Read(s: Bytestring, field: string)
    ensures var r := TakeUInt64(s, field);
            r.Success? ==> s == BigEndian(Number(r.value.bytes), 8) + r.value.rest
  {
    var r := TakeUInt64(s, field);
    if r.Success? {
      BigEndianOfNumber(r.value.bytes);
    }
  }

  lemma PaymentParsed(s: Bytestring)
    ensures var r := ParsePayment(s);
            r.Success? ==>
              var p := r.value.payment;
              && Fits(p.sender, 2) && Fits(p.recipient, 2) && Fits(p.valueBytes, 2)
              && s == PrintPayment(p, r.value.rest)
  {
    if ParsePayment(s).Success? {
      hide BigEndian, Number, Counted, TakeCounted, Fits;
      var nonce := TakeUInt64(s, "nonce").value;
      var sender := TakeCounted(nonce.rest, 2, "fromLen", "from").value;
      var recipient := TakeCounted(sender.rest, 2, "toLen", "to").value;
      UInt64Read(s, "nonce");
      CountedRead(nonce.rest, 2, "fromLen", "from");
      CountedRead(sender.rest, 2, "toLen", "to");
      CountedRead(recipient.rest, 2, "valueLen", "value");
    }
  }

  lemma LaneRead(s: Bytestring)
    ensures var r := Take(s, 1, "lane");
            r.Success? ==> |r.value.bytes| == 1 && s == [r.value.bytes[0]] + r.value.rest
  {
  }

  lemma ExecutionParsed(s: Bytestring)
    ensures var r := ParseExecution(s);
            r.Success? ==>
              var e := r.value.execution;
              && Fits(e.encryptedData, 4) && Fits(e.data, 4) && Fits(e.signature, 2)
              && s == PrintExecution(e, r.value.rest)
  {
    if ParseExecution(s).Success? {
      hide BigEndian, Number, Counted, TakeCounted, TakeUInt64, Take, Fits;
      var gasLimit := TakeUInt64(s, "gasLimit").value;
      var gasPrice := TakeUInt64(gasLimit.rest, "gasPrice").value;
      var lane := Take(gasPrice.rest, 1, "lane").value;
      var encrypted := TakeCounted(lane.rest, 4, "encDataLen", "encrypted data").value;
      var data := TakeCounted(encrypted.rest, 4, "dataLen", "data").value;
      UInt64Read(s, "gasLimit");
      UInt64Read(gasLimit.rest, "gasPrice");
      LaneRead(gasPrice.rest);
      CountedRead(lane.rest, 4, "encDataLen", "encrypted data");
      CountedRead(encrypted.rest, 4, "dataLen", "data");
      CountedRead(data.rest, 2, "sigLen", "signature");
    }
  }

  /** Printing undoes parsing: whatever parses was a print of what came out. */
  lemma PrintParse(s: Bytestring)
    ensures var r := Parse(s);
            r.Success? ==> WireFits(r.value.wire) && s == Print(r.value.wire, r.value.rest)
  {
    if Parse(s).Success? {
      hide PrintPayment, PrintExecution, ParsePayment, ParseExecution;
      PaymentParsed(s);
      ExecutionParsed(ParsePayment(s).value.rest);
    }
  }

  // ----- the signing hash

  /** Fields joined by colons. */
  function Joined(first: Bytestring, fields: seq<Bytestring>): Bytestring {
    if fields == [] then first else Joined(first, fields[..|fields| - 1]) + [COLON] + fields[|fields| - 1]
  }

  /** The fields behind the addresses, as text. */
  function Tail(t: Transaction): seq<Bytestring> {
    [DecimalInt(t.value), DecimalInt(t.gasLimit), DecimalInt(t.lane), DecimalInt(|t.data|),
     Hex(t.data), Hex(t.encryptedData)]
  }

  /** The text that is hashed: every wire field but the gas price and the signature. */
  function HashInput(t: Transaction): Bytestring {
    Joined(DecimalInt(t.nonce), [t.sender, t.recipient] + Tail(t))
  }

  function TxHash(t: Transaction): Digest {
    Sha256(HashInput(t))
  }

  function Addresses(t: Transaction): Bytestring {
    t.sender + [COLON] + t.recipient
  }

  lemma {:induction false} JoinedFront(first: Bytestring, second: Bytestring, fields: seq<Bytestring>)
    ensures Joined(first, [second] + fields) == first + [COLON] + Joined(second, fields)
    ensures Joined(first, [second] + fields) == Joined(first + [COLON] + second, fields)
    decreases |fields|
  {
    var all := [second] + fields;
    if fields == [] {
      assert all == [second] && Joined(first, []) == first;
    } else {
      assert all[..|all| - 1] == [second] + fields[..|fields| - 1];
      JoinedFront(first, second, fields[..|fields| - 1]);
    }
  }

  /** Colon-free fields split off from the right in one way only, whatever stands before them. */
  lemma {:induction false} JoinedSplits(a: Bytestring, f: seq<Bytestring>, b: Bytestring, g: seq<Bytestring>)
    requires |f| == |g| && Joined(a, f) == Joined(b, g)
    requires forall i | 0 <= i < |f| :: COLON !in f[i] && COLON !in g[i]
    ensures a == b && f == g
  {
    if f != [] {
      var n := |f| - 1;
      LastColonSplits(Joined(a, f[..n]), f[n], Joined(b, g[..n]), g[n]);
      JoinedSplits(a, f[..n], b, g[..n]);
      assert f == f[..n] + [f[n]] && g == g[..n] + [g[n]];
    }
  }

  lemma HashInputIs(t: Transaction)
    ensures HashInput(t) == DecimalInt(t.nonce) + [COLON] + Joined(Addresses(t), Tail(t))
  {
    hide DecimalInt, Tail;
    assert [t.sender, t.recipient] + Tail(t) == [t.sender] + ([t.recipient] + Tail(t));
    JoinedFront(DecimalInt(t.nonce), t.sender, [t.recipient] + Tail(t));
    JoinedFront(t.sender, t.recipient, Tail(t));
  }

  /** The hashed text, part by part: nonce, sender, recipient, value, gas limit, lane, the number of data
      bytes, the data and the encrypted data, with a colon between each two. */
  lemma HashTextIs(t: Transaction)
    ensures HashInput(t) == DecimalInt(t.nonce) + [':' as int] + t.sender + [':' as int] + t.recipient
                            + [':' as int] + DecimalInt(t.value) + [':' as int] + DecimalInt(t.gasLimit)
                            + [':' as int] + DecimalInt(t.lane) + [':' as int] + DecimalInt(|t.data|)
                            + [':' as int] + Hex(t.data) + [':' as int] + Hex(t.encryptedData)
  {
    hide DecimalInt, Hex, Joined;
    var first := DecimalInt(t.nonce);
    assert [t.sender, t.recipient] + Tail(t) == [t.sender] + ([t.recipient] + Tail(t));
    JoinedFront(first, t.sender, [t.recipient] + Tail(t));
    JoinedFront(first + [COLON] + t.sender, t.recipient, Tail(t));
    JoinedSix(first + [COLON] + t.sender + [COLON] + t.recipient, Tail(t));
  }

  lemma JoinedSix(first: Bytestring, f: seq<Bytestring>)
    requires |f| == 6
    ensures Joined(first, f) == first + [COLON] + f[0] + [COLON] + f[1] + [COLON] + f[2] + [COLON] + f[3]
                                + [COLON] + f[4] + [COLON] + f[5]
  {
    hide Joined;
    JoinedStep(first, f, 1);
    JoinedStep(first, f, 2);
    JoinedStep(first, f, 3);
    JoinedStep(first, f, 4);
    JoinedStep(first, f, 5);
    JoinedStep(first, f, 6);
    JoinedNone(first);
    assert f[..0] == [] && f[..6] == f;
  }

  lemma JoinedStep(first: Bytestring, fields: seq<Bytestring>, n: nat)
    requires 0 < n <= |fields|
    ensures Joined(first, fields[..n]) == Joined(first, fields[..n - 1]) + [COLON] + fields[n - 1]
  {
    assert fields[..n][..n - 1] == fields[..n - 1];
  }

  lemma JoinedNone(first: Bytestring)
    ensures Joined(first, []) == first
  {
  }

  lemma TailHasNoColon(t: Transaction)
    ensures forall i | 0 <= i < 6 :: COLON !in Tail(t)[i]
  {
    TextHasNoColon(t.value, t.data);
    TextHasNoColon(t.gasLimit, t.encryptedData);
    TextHasNoColon(t.lane, []);
    TextHasNoColon(|t.data|, []);
  }

  lemma TailCovers(t: Transaction, u: Transaction)
    ensures Tail(t) == Tail(u) <==>
              t.value == u.value && t.gasLimit == u.gasLimit && t.lane == u.lane && t.data == u.data
              && t.encryptedData == u.encryptedData
  {
    if Tail(t) == Tail(u) {
      assert forall i | 0 <= i < 6 :: Tail(t)[i] == Tail(u)[i];
      DecimalIntIsInjective(t.value, u.value);
      DecimalIntIsInjective(t.gasLimit, u.gasLimit);
      DecimalIntIsInjective(t.lane, u.lane);
      HexIsInjective(t.data, u.data);
      HexIsInjective(t.encryptedData, u.encryptedData);
    }
  }

  /** What a signature covers, exactly: nonce, value, gas limit, lane, data and encrypted data, and the
      two addresses joined by a colon. */
  lemma HashCovers(t: Transaction, u: Transaction)
    ensures TxHash(t) == TxHash(u) <==>
              && t.nonce == u.nonce && t.value == u.value && t.gasLimit == u.gasLimit && t.lane == u.lane
              && t.data == u.data && t.encryptedData == u.encryptedData
              && Addresses(t) == Addresses(u)
  {
    hide DecimalInt, Tail, HashInput, Joined, Addresses;
    HashInputIs(t);
    HashInputIs(u);
    TailCovers(t, u);
    if TxHash(t) == TxHash(u) {
      TextHasNoColon(t.nonce, []);
      TextHasNoColon(u.nonce, []);
      ColonSplits(DecimalInt(t.nonce), Joined(Addresses(t), Tail(t)),
                  DecimalInt(u.nonce), Joined(Addresses(u), Tail(u)));
      DecimalIntIsInjective(t.nonce, u.nonce);
      TailHasNoColon(t);
      TailHasNoColon(u);
      TailLength(t, u);
      JoinedSplits(Addresses(t), Tail(t), Addresses(u), Tail(u));
    }
  }

  lemma TailLength(t: Transaction, u: Transaction)
    ensures |Tail(t)| == |Tail(u)| == 6
  {
  }

  /** Moving a colon's worth of the recipient over to the sender leaves the hash as it is: the parser
      accepts colons in both. */
  lemma AddressesMayShift(t: Transaction, x: Bytestring, y: Bytestring)
    requires t.recipient == x + [COLON] + y
    ensures var u := t.(sender := t.sender + [COLON] + x, recipient := y);
            u != t && TxHash(u) == TxHash(t)
  {
    hide DecimalInt, TxHash;
    var u := t.(sender := t.sender + [COLON] + x, recipient := y);
    assert Addresses(u) == Addresses(t);
    assert |u.recipient| < |t.recipient|;
    HashCovers(t, u);
  }

  /** Between senders without a colon the addresses are covered too. */
  lemma AddressesAreCovered(t: Transaction, u: Transaction)
    requires COLON !in t.sender && COLON !in u.sender
    ensures TxHash(t) == TxHash(u) <==> t == u.(gasPrice := t.gasPrice, signature := t.signature)
  {
    hide DecimalInt, TxHash;
    HashCovers(t, u);
    if Addresses(t) == Addresses(u) {
      ColonSplits(t.sender, t.recipient, u.sender, u.recipient);
    }
  }

  // ----- the receiver

  function Deserialize(s: Bytestring): Result<Received> {
    var parsed :- Parse(s);
    var tx := FromWire(parsed.wire);
    Success(Received(tx, TxHash(tx), |s| - |parsed.rest|))
  }

  class Reader {
    const data: Bytestring
    var off: nat
    var buf: Bytestring

    ghost predicate Valid()
      reads this
    {
      off <= |data|
    }

    ghost function Ahead(): Bytestring
      reads this
      requires Valid()
    {
      data[off..]
    }

    constructor (data: Bytestring)
      ensures this.data == data && Valid() && off == 0
    {
      this.data, off, buf := data, 0, [];
    }

    method Read(n: nat) returns (ok: bool)
      requires Valid()
      modifies this
      ensures Valid() && ok == (n <= |old(Ahead())|)
      ensures if ok then buf == old(Ahead())[..n] && Ahead() == old(Ahead())[n..] else unchanged(this)
    {
      if off + n > |data| {
        return false;
      }
      buf := data[off..off + n];
      off := off + n;
      return true;
    }

    method ReadUInt64(field: string) returns (r: Result<UInt64>)
      requires Valid()
      modifies this
      ensures Valid()
      ensures match TakeUInt64(old(Ahead()), field)
              case Success(piece) => r == Success(Number(piece.bytes)) && Ahead() == piece.rest
              case ShortRead(f) => r == ShortRead(f)
    {
      var ok := Read(8);
      if !ok {
        return ShortRead(field);
      }
      NumberFits(buf);
      PowersOf256();
      return Success(Number(buf));
    }

    method ReadCounted(width: nat, lengthField: string, field: string) returns (r: Result<Bytestring>)
      requires Valid()
      modifies this
      ensures Valid()
      ensures match TakeCounted(old(Ahead()), width, lengthField, field)
              case Success(piece) => r == Success(piece.bytes) && Ahead() == piece.rest
              case ShortRead(f) => r == ShortRead(f)
    {
      var ok := Read(width);
      if !ok {
        return ShortRead(lengthField);
      }
      ok := Read(Number(buf));
      if !ok {
        return ShortRead(field);
      }
      return Success(buf);
    }

    method ReadPayment() returns (r: Result<Payment>)
      requires Valid()
      modifies this
      ensures Valid()
      ensures match ParsePayment(old(Ahead()))
              case Success(parsed) => r == Success(parsed.payment) && Ahead() == parsed.rest
              case ShortRead(f) => r == ShortRead(f)
    {
      hide Number, TakeUInt64, TakeCounted;
      var nonce :- ReadUInt64("nonce");
      var sender :- ReadCounted(2, "fromLen", "from");
      var recipient :- ReadCounted(2, "toLen", "to");
      var value :- ReadCounted(2, "valueLen", "value");
      return Success(Payment(nonce, sender, recipient, value));
    }

    method ReadExecution() returns (r: Result<Execution>)
      requires Valid()
      modifies this
      ensures Valid()
      ensures match ParseExecution(old(Ahead()))
              case Success(parsed) => r == Success(parsed.execution) && Ahead() == parsed.rest
              case ShortRead(f) => r == ShortRead(f)
    {
      hide Number, TakeUInt64, TakeCounted;
      var gasLimit :- ReadUInt64("gasLimit");
      var gasPrice :- ReadUInt64("gasPrice");
      var ok := Read(1);
      if !ok {
        return ShortRead("lane");
      }
      var lane := buf[0];
      var encrypted :- ReadCounted(4, "encDataLen", "encrypted data");
      var data :- ReadCounted(4, "dataLen", "data");
      var signature :- ReadCounted(2, "sigLen", "signature");
      return Success(Execution(gasLimit, gasPrice, lane, encrypted, data, signature));
    }
  }

  /** Reads the fields in order, failing on the first that is cut short, and hashes them. Bytes
      after the signature are not looked at. */
  method DeserializeTx(data: Bytestring) returns (r: Result<Received>)
    ensures r == Deserialize(data)
  {
    hide HashInput, ParsePayment, ParseExecution;
    var reader := new Reader(data);
    assert data[0..] == data;
    var payment :- reader.ReadPayment();
    var execution :- reader.ReadExecution();
    var tx := FromWire(Wire(payment, execution));
    var hashInput := HashInput(tx);
    return Success(Received(tx, Sha256(hashInput), reader.off));
  }

  // ----- the theorems

  predicate TxFits(t: Transaction) {
    t.value >= 0 && WireFits(ToWire(t))
  }

  lemma {:induction false} MagnitudeIsShortest(b: Bytestring)
    ensures |Magnitude(Number(b))| <= |b|
  {
    if b != [] {
      MagnitudeIsShortest(b[..|b| - 1]);
      assert Number(b) / 256 == Number(b[..|b| - 1]);
    }
  }

  lemma FromToWire(t: Transaction)
    ensures FromWire(ToWire(t)) == t <==> t.value >= 0
  {
    NumberOfMagnitude(Abs(t.value));
  }

  /** A transaction comes back from the wire, with the sender's hash and whatever follows it left
      unread, exactly when its lengths fit their prefixes and its value is not negative. */
  lemma RoundTrip(t: Transaction, rest: Bytestring)
    ensures Deserialize(Print(ToWire(t), rest)) == Success(Received(t, TxHash(t), |Print(ToWire(t), [])|))
        <==> TxFits(t)
  {
    hide Print, Parse, TxHash, FromWire, ToWire;
    var s := Print(ToWire(t), rest);
    PrintThen(ToWire(t), rest);
    FromToWire(t);
    if TxFits(t) {
      ParsePrint(ToWire(t), rest);
    }
    if Parse(s).Success? && FromWire(Parse(s).value.wire) == t {
      PrintParse(s);
      DecodedFits(Parse(s).value.wire);
    }
  }

  lemma DecodedFits(w: Wire)
    requires WireFits(w)
    ensures TxFits(FromWire(w))
  {
    MagnitudeIsShortest(w.payment.valueBytes);
  }

  /** Re-encoding what was decoded gives back exactly the bytes consumed, exactly when the value
      field has no leading zero. */
  lemma ReEncode(s: Bytestring)
    requires Parse(s).Success?
    ensures var w := Parse(s).value.wire;
            var r := Deserialize(s).value;
            && r.consumed <= |s|
            && (Print(ToWire(r.tx), []) == s[..r.consumed] <==> NoLeadingZero(w.payment.valueBytes))
  {
    hide Print, Parse, TxHash;
    var w, rest := Parse(s).value.wire, Parse(s).value.rest;
    var w' := ToWire(FromWire(w));
    PrintParse(s);
    PrintThen(w, rest);
    assert s[..|Print(w, [])|] == Print(w, []);
    DecodedFits(w);
    ParsePrint(w, []);
    ParsePrint(w', []);
    MagnitudeOfNumber(w.payment.valueBytes);
    assert w' == w <==> NoLeadingZero(w.payment.valueBytes);
  }

  /** No encoding is the start of another: equal streams begin with equal transactions. */
  lemma EncodingIsPrefixFree(t: Transaction, x: Bytestring, u: Transaction, y: Bytestring)
    requires TxFits(t) && TxFits(u)
    requires Print(ToWire(t), x) == Print(ToWire(u), y)
    ensures t == u && x == y
  {
    hide Print, Parse, FromWire, ToWire;
    ParsePrint(ToWire(t), x);
    ParsePrint(ToWire(u), y);
    FromToWire(t);
    FromToWire(u);
  }

  // ----- the layout, and what is missing of a truncated encoding

  /** A field of the encoding under the name that a short read of it reports. */
  datatype Chunk = Chunk(name: string, bytes: Bytestring)

  function Flatten(chunks: seq<Chunk>): Bytestring {
    if chunks == [] then [] else chunks[0].bytes + Flatten(chunks[1..])
  }

  function CountedChunks(lengthName: string, name: string, b: Bytestring, width: nat): seq<Chunk> {
    [Chunk(lengthName, BigEndian(|b|, width)), Chunk(name, b)]
  }

  function PaymentChunks(p: Payment): seq<Chunk> {
    [Chunk("nonce", BigEndian(p.nonce, 8))]
    + (CountedChunks("fromLen", "from", p.sender, 2)
    + (CountedChunks("toLen", "to", p.recipient, 2)
    + CountedChunks("valueLen", "value", p.valueBytes, 2)))
  }

  function ExecutionChunks(e: Execution): seq<Chunk> {
    [Chunk("gasLimit", BigEndian(e.gasLimit, 8))]
    + ([Chunk("gasPrice", BigEndian(e.gasPrice, 8))]
    + PayloadChunks(e))
  }

  function PayloadChunks(e: Execution): seq<Chunk> {
    [Chunk("lane", [e.lane])]
    + (CountedChunks("encDataLen", "encrypted data", e.encryptedData, 4)
    + (CountedChunks("dataLen", "data", e.data, 4)
    + CountedChunks("sigLen", "signature", e.signature, 2)))
  }

  /** The chunk in which a string that is cut after k bytes breaks off. */
  function CutIn(chunks: seq<Chunk>, k: nat): string
    requires k < |Flatten(chunks)|
  {
    if k < |chunks[0].bytes| then chunks[0].name else CutIn(chunks[1..], k - |chunks[0].bytes|)
  }

  lemma CutTake(b: Bytestring, rest: Bytestring, k: nat, field: string)
    requires k <= |b + rest|
    ensures Take((b + rest)[..k], |b|, field)
         == if k < |b| then ShortRead(field) else Success(Piece(b, rest[..k - |b|]))
  {
    if k >= |b| {
      assert (b + rest)[..k][..|b|] == b;
      assert (b + rest)[..k][|b|..] == rest[..k - |b|];
    }
  }

  lemma CutUInt64(v: UInt64, rest: Bytestring, k: nat, field: string)
    requires k <= 8 + |rest|
    ensures TakeUInt64((BigEndian(v, 8) + rest)[..k], field)
         == if k < 8 then ShortRead(field) else Success(Piece(BigEndian(v, 8), rest[..k - 8]))
  {
    CutTake(BigEndian(v, 8), rest, k, field);
  }

  lemma CutCounted(b: Bytestring, width: nat, rest: Bytestring, k: nat, lengthField: string, field: string)
    requires Fits(b, width) && k <= width + |b| + |rest|
    ensures var chunks := CountedChunks(lengthField, field, b, width);
            && Flatten(chunks) == Counted(b, width)
            && TakeCounted((Counted(b, width) + rest)[..k], width, lengthField, field)
               == if k < width + |b| then ShortRead(CutIn(chunks, k)) else Success(Piece(b, rest[..k - width - |b|]))
  {
    hide BigEndian, Number, Take;
    assert Counted(b, width) + rest == BigEndian(|b|, width) + (b + rest);
    CutTake(BigEndian(|b|, width), b + rest, k, lengthField);
    NumberOfBigEndian(|b|, width);
    if k >= width {
      CutTake(b, rest, k - width, field);
    }
    CutPair(Chunk(lengthField, BigEndian(|b|, width)), Chunk(field, b), k);
  }

  lemma CutOne(c: Chunk, k: nat)
    ensures Flatten([c]) == c.bytes
    ensures k < |c.bytes| ==> CutIn([c], k) == c.name
  {
    assert [c][1..] == [];
  }

  lemma CutPair(c: Chunk, d: Chunk, k: nat)
    ensures Flatten([c, d]) == c.bytes + d.bytes
    ensures k < |c.bytes + d.bytes| ==> CutIn([c, d], k) == if k < |c.bytes| then c.name else d.name
  {
    assert [c, d][1..] == [d];
    CutOne(d, if k < |c.bytes| then 0 else k - |c.bytes|);
  }

  lemma {:induction false} CutAppend(a: seq<Chunk>, b: seq<Chunk>, k: nat)
    ensures Flatten(a + b) == Flatten(a) + Flatten(b)
    ensures k < |Flatten(a + b)| ==>
              CutIn(a + b, k) == if k < |Flatten(a)| then CutIn(a, k) else CutIn(b, k - |Flatten(a)|)
    decreases |a|
  {
    if a == [] {
      assert a + b == b;
    } else {
      assert (a + b)[1..] == a[1..] + b;
      CutAppend(a[1..], b, if k < |a[0].bytes| then 0 else k - |a[0].bytes|);
    }
  }

  lemma CutPayment(p: Payment, rest: Bytestring, k: nat)
    requires Fits(p.sender, 2) && Fits(p.recipient, 2) && Fits(p.valueBytes, 2)
    requires k <= |PrintPayment(p, rest)|
    ensures var chunks := PaymentChunks(p);
            && PrintPayment(p, rest) == Flatten(chunks) + rest
            && ParsePayment(PrintPayment(p, rest)[..k])
               == if k < |Flatten(chunks)| then ShortRead(CutIn(chunks, k))
                  else Success(ParsedPayment(p, rest[..k - |Flatten(chunks)|]))
  {
    hide BigEndian, Number, Counted, TakeCounted, TakeUInt64, Take, Flatten, CutIn, CountedChunks;
    var s3 := Counted(p.valueBytes, 2) + rest;
    var s2 := Counted(p.recipient, 2) + s3;
    var s1 := Counted(p.sender, 2) + s2;
    var c3 := CountedChunks("valueLen", "value", p.valueBytes, 2);
    var c2 := CountedChunks("toLen", "to", p.recipient, 2);
    var c1 := CountedChunks("fromLen", "from", p.sender, 2);
    var c0 := [Chunk("nonce", BigEndian(p.nonce, 8))];
    var k1: nat := if k < 8 then 0 else k - 8;
    var k2: nat := if k1 < 2 + |p.sender| then 0 else k1 - 2 - |p.sender|;
    var k3: nat := if k2 < 2 + |p.recipient| then 0 else k2 - 2 - |p.recipient|;
    CutUInt64(p.nonce, s1, k, "nonce");
    CutOne(c0[0], k);
    CutCounted(p.sender, 2, s2, k1, "fromLen", "from");
    CutCounted(p.recipient, 2, s3, k2, "toLen", "to");
    CutCounted(p.valueBytes, 2, rest, k3, "valueLen", "value");
    CutAppend(c0, c1 + (c2 + c3), k);
    CutAppend(c1, c2 + c3, k1);
    CutAppend(c2, c3, k2);
    ReadUInt64Back(p.nonce, s1, "nonce");
  }

  lemma CutPayload(e: Execution, rest: Bytestring, k: nat)
    requires Fits(e.encryptedData, 4) && Fits(e.data, 4) && Fits(e.signature, 2)
    requires k <= |PrintPayload(e, rest)|
    ensures var chunks := PayloadChunks(e);
            && PrintPayload(e, rest) == Flatten(chunks) + rest
            && ParsePayload(PrintPayload(e, rest)[..k], e.gasLimit, e.gasPrice)
               == if k < |Flatten(chunks)| then ShortRead(CutIn(chunks, k))
                  else Success(ParsedExecution(e, rest[..k - |Flatten(chunks)|]))
  {
    hide BigEndian, Number, Counted, TakeCounted, TakeUInt64, Take, Flatten, CutIn, CountedChunks, Fits;
    var s5 := Counted(e.signature, 2) + rest;
    var s4 := Counted(e.data, 4) + s5;
    var s3 := Counted(e.encryptedData, 4) + s4;
    var c5 := CountedChunks("sigLen", "signature", e.signature, 2);
    var c4 := CountedChunks("dataLen", "data", e.data, 4);
    var c3 := CountedChunks("encDataLen", "encrypted data", e.encryptedData, 4);
    var c2 := [Chunk("lane", [e.lane])];
    var k3: nat := if k < 1 then 0 else k - 1;
    var k4: nat := if k3 < 4 + |e.encryptedData| then 0 else k3 - 4 - |e.encryptedData|;
    var k5: nat := if k4 < 4 + |e.data| then 0 else k4 - 4 - |e.data|;
    CutTake([e.lane], s3, k, "lane");
    CutOne(c2[0], k);
    CutCounted(e.encryptedData, 4, s4, k3, "encDataLen", "encrypted data");
    CutCounted(e.data, 4, s5, k4, "dataLen", "data");
    CutCounted(e.signature, 2, rest, k5, "sigLen", "signature");
    CutAppend(c2, c3 + (c4 + c5), k);
    CutAppend(c3, c4 + c5, k3);
    CutAppend(c4, c5, k4);
  }

  lemma CutExecution(e: Execution, rest: Bytestring, k: nat)
    requires Fits(e.encryptedData, 4) && Fits(e.data, 4) && Fits(e.signature, 2)
    requires k <= |PrintExecution(e, rest)|
    ensures var chunks := ExecutionChunks(e);
            && PrintExecution(e, rest) == Flatten(chunks) + rest
            && ParseExecution(PrintExecution(e, rest)[..k])
               == if k < |Flatten(chunks)| then ShortRead(CutIn(chunks, k))
                  else Success(ParsedExecution(e, rest[..k - |Flatten(chunks)|]))
  {
    hide BigEndian, Number, TakeUInt64, Take, Flatten, CutIn, PayloadChunks, ParsePayload;
    var s2 := PrintPayload(e, rest);
    var s1 := BigEndian(e.gasPrice, 8) + s2;
    var c2 := PayloadChunks(e);
    var c1 := [Chunk("gasPrice", BigEndian(e.gasPrice, 8))];
    var c0 := [Chunk("gasLimit", BigEndian(e.gasLimit, 8))];
    var k1: nat := if k < 8 then 0 else k - 8;
    var k2: nat := if k1 < 8 then 0 else k1 - 8;
    assert PrintExecution(e, rest) == BigEndian(e.gasLimit, 8) + s1;
    CutUInt64(e.gasLimit, s1, k, "gasLimit");
    CutOne(c0[0], k);
    CutUInt64(e.gasPrice, s2, k1, "gasPrice");
    CutOne(c1[0], k1);
    CutPayload(e, rest, k2);
    CutAppend(c0, c1 + c2, k);
    CutAppend(c1, c2, k1);
    ReadUInt64Back(e.gasLimit, s1, "gasLimit");
    ReadUInt64Back(e.gasPrice, s2, "gasPrice");
  }

  function Layout(w: Wire): seq<Chunk> {
    PaymentChunks(w.payment) + ExecutionChunks(w.execution)
  }

  /** An encoding that is cut short anywhere is rejected, and the error names the field in which it breaks
      off; with all of its fields there, it parses. */
  lemma TruncationIsNamed(w: Wire, k: nat)
    requires WireFits(w) && k <= |Print(w, [])|
    ensures Print(w, []) == Flatten(Layout(w))
    ensures if k < |Print(w, [])| then Parse(Print(w, [])[..k]) == ShortRead(CutIn(Layout(w), k))
            else Parse(Print(w, [])[..k]) == Success(Parsed(w, []))
  {
    hide PrintPayment, PrintExecution, ParsePayment, ParseExecution, Flatten, CutIn, PaymentChunks, ExecutionChunks;
    var p, e := PaymentChunks(w.payment), ExecutionChunks(w.execution);
    var rest := PrintExecution(w.execution, []);
    CutAppend(p, e, k);
    CutPayment(w.payment, rest, k);
    var k1: nat := if k < |Flatten(p)| then 0 else k - |Flatten(p)|;
    CutExecution(w.execution, [], k1);
  }
}
