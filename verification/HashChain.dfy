/** The credit ledger's hash chain: the length-prefixed encoding, the hash of an event, the chain verifier, and
    what an accepted chain cannot hide. */
module HashChain {
  import opened Sequences
  import opened DecimalText
  import opened Text

  newtype byte = x: int | 0 <= x < 256

  const LENGTH_LIMIT: nat := 0x1_0000_0000

  // ---- Length-prefixed fields ----

  function UInt32BE(n: nat): (b: seq<byte>)
    requires n < LENGTH_LIMIT
    ensures |b| == 4
  {
    [(n / 0x100_0000) as byte, (n / 0x1_0000 % 256) as byte, (n / 256 % 256) as byte, (n % 256) as byte]
  }

  function ReadUInt32BE(b: seq<byte>): (n: nat)
    requires |b| >= 4
    ensures n < LENGTH_LIMIT
  {
    b[0] as nat * 0x100_0000 + b[1] as nat * 0x1_0000 + b[2] as nat * 256 + b[3] as nat
  }

  lemma UInt32RoundTrip(n: nat, b: seq<byte>)
    requires n < LENGTH_LIMIT && |b| == 4
    ensures ReadUInt32BE(UInt32BE(n)) == n
    ensures UInt32BE(ReadUInt32BE(b)) == b
  {
    SplitByte(n);
    SplitByte(n / 256);
    SplitByte(n / 0x1_0000);
    assert n / 256 / 256 == n / 0x1_0000 && n / 0x1_0000 / 256 == n / 0x100_0000;
    var high := b[0] as nat * 256 + b[1] as nat;
    JoinByte(high * 256 + b[2] as nat, b[3] as nat);
    JoinByte(high, b[2] as nat);
    JoinByte(b[0] as nat, b[1] as nat);
  }

  lemma SplitByte(n: nat)
    ensures n == n / 256 * 256 + n % 256
  {
  }

  lemma JoinByte(high: nat, low: nat)
    requires low < 256
    ensures (high * 256 + low) / 256 == high && (high * 256 + low) % 256 == low
  {
  }

  predicate AllFit(fields: seq<seq<byte>>) {
    forall i :: 0 <= i < |fields| ==> |fields[i]| < LENGTH_LIMIT
  }

  function Field(bytes: seq<byte>): seq<byte>
    requires |bytes| < LENGTH_LIMIT
  {
    UInt32BE(|bytes|) + bytes
  }

  function EncodeFields(fields: seq<seq<byte>>): seq<byte>
    requires AllFit(fields)
  {
    if fields == [] then [] else Field(fields[0]) + EncodeFields(fields[1..])
  }

  function DecodeFields(bytes: seq<byte>): Option<seq<seq<byte>>> {
    if bytes == [] then Some([])
    else if |bytes| < 4 || |bytes| - 4 < ReadUInt32BE(bytes) then None
    else
      var end := 4 + ReadUInt32BE(bytes);
      match DecodeFields(bytes[end..])
      case None => None
      case Some(rest) => Some([bytes[4..end]] + rest)
  }

  lemma DecodeField(bytes: seq<byte>, rest: seq<byte>)
    requires |bytes| < LENGTH_LIMIT
    ensures Field(bytes) + rest != [] && |Field(bytes) + rest| == 4 + |bytes| + |rest|
    ensures ReadUInt32BE(Field(bytes) + rest) == |bytes|
    ensures (Field(bytes) + rest)[4..4 + |bytes|] == bytes && (Field(bytes) + rest)[4 + |bytes|..] == rest
  {
    var prefix, s := UInt32BE(|bytes|), Field(bytes) + rest;
    UInt32RoundTrip(|bytes|, prefix);
    assert forall k :: 0 <= k < 4 ==> s[k] == prefix[k];
  }

  lemma {:induction false} DecodeEncoded(fields: seq<seq<byte>>)
    requires AllFit(fields)
    ensures DecodeFields(EncodeFields(fields)) == Some(fields)
  {
    if fields != [] {
      var rest := EncodeFields(fields[1..]);
      DecodeField(fields[0], rest);
      DecodeEncoded(fields[1..]);
      assert fields == [fields[0]] + fields[1..];
    }
  }

  lemma EncodeField(bytes: seq<byte>)
    requires |bytes| >= 4 && |bytes| - 4 >= ReadUInt32BE(bytes)
    ensures var end := 4 + ReadUInt32BE(bytes);
            Field(bytes[4..end]) + bytes[end..] == bytes
  {
    var n := ReadUInt32BE(bytes);
    UInt32RoundTrip(n, bytes[..4]);
    assert bytes == bytes[..4] + bytes[4..4 + n] + bytes[4 + n..];
  }

  lemma {:induction false} EncodeDecoded(bytes: seq<byte>)
    requires DecodeFields(bytes).Some?
    ensures AllFit(DecodeFields(bytes).value) && EncodeFields(DecodeFields(bytes).value) == bytes
    decreases |bytes|
  {
    if bytes != [] {
      var n := ReadUInt32BE(bytes);
      var rest := DecodeFields(bytes[4 + n..]).value;
      EncodeDecoded(bytes[4 + n..]);
      EncodeField(bytes);
      var fields := [bytes[4..4 + n]] + rest;
      assert fields[1..] == rest;
    }
  }

  // ---- Events ----

  /** What the model does not look into: SHA-256, UTF-8, and the calendar, which gives a millisecond timestamp its
      astronomical year (0 is 1 BC) and the rest of its text, `-MM-DDTHH:MM:SS.mmmZ`. */
  datatype Platform = Platform(sha256: seq<byte> -> seq<byte>, utf8: string -> seq<byte>, year: int -> int,
                               rest: int -> string)

  const REST_LENGTH: nat := 20

  ghost predicate Faithful(os: Platform) {
    && (forall s, t {:trigger os.utf8(s), os.utf8(t)} :: os.utf8(s) == os.utf8(t) ==> s == t)
    && (forall x {:trigger os.rest(x)} :: |os.rest(x)| == REST_LENGTH)
    && (forall x, y {:trigger os.rest(x), os.rest(y)} :: os.year(x) == os.year(y) && os.rest(x) == os.rest(y) ==>
          x == y)
  }

  // ---- The two spellings of a time ----

  /** The writer hashes `to_char(… 'YYYY-MM-DD"T"…')`, the verifier `toISOString()`. */
  datatype Side = Writer | Verifier

  /** `YYYY` of to_char: at least four digits, and of a year BC its number. */
  function WriterYear(y: int): string {
    Padded(if y <= 0 then 1 - y else y, 4)
  }

  /** The year of toISOString: four digits from 0 to 9999, otherwise a sign and six. */
  function VerifierYear(y: int): string {
    if 0 <= y <= 9999 then Padded(y, 4)
    else if y < 0 then "-" + Padded(-y, 6)
    else "+" + Padded(y, 6)
  }

  function TimeText(os: Platform, side: Side, t: int): string {
    (if side == Writer then WriterYear(os.year(t)) else VerifierYear(os.year(t))) + os.rest(t)
  }

  predicate YearInRange(os: Platform, t: int) {
    1 <= os.year(t) <= 9999
  }

  lemma VerifierYearShape(y: int)
    ensures var s := VerifierYear(y);
            s != "" && (IsDigit(s[0]) <==> 0 <= y <= 9999) && (s[0] == '-' <==> y < 0) && (s[0] == '+' <==> y > 9999)
    ensures !(0 <= y <= 9999) ==> VerifierYear(y)[1..] == Padded(Magnitude(y), 6)
  {
    PaddedValue(Magnitude(y), 4);
    var p := Padded(Magnitude(y), 6);
    assert ("-" + p)[1..] == p && ("+" + p)[1..] == p;
  }

  /** Outside the years 1 to 9999 the two spellings differ. */
  lemma YearsAgreeIff(y: int)
    ensures WriterYear(y) == VerifierYear(y) <==> 1 <= y <= 9999
  {
    VerifierYearShape(y);
    PaddedValue(if y <= 0 then 1 - y else y, 4);
    assert IsDigit(WriterYear(y)[0]);
    if y == 0 { PaddedValue(0, 4); }
  }

  /** For instance the year 10000: five digits from the writer, a sign and six digits from the verifier. */
  lemma TheYearTenThousandDiffers()
    ensures VerifierYear(10000) == "+" + Padded(10000, 6)
    ensures WriterYear(10000) == Padded(10000, 4) != VerifierYear(10000)
  {
    YearsAgreeIff(10000);
  }

  lemma TimesAgreeIff(os: Platform, t: int)
    ensures TimeText(os, Writer, t) == TimeText(os, Verifier, t) <==> YearInRange(os, t)
  {
    YearsAgreeIff(os.year(t));
    SameSuffix(WriterYear(os.year(t)), VerifierYear(os.year(t)), os.rest(t), os.rest(t));
  }

  lemma SameSuffix(a: string, b: string, s: string, t: string)
    requires |s| == |t|
    ensures a + s == b + t ==> a == b && s == t
  {
    if a + s == b + t {
      assert a == (a + s)[..|a|] && b == (b + t)[..|b|];
      assert s == (a + s)[|a|..] && t == (b + t)[|b|..];
    }
  }

  lemma VerifierYearIsInjective(x: int, y: int)
    requires VerifierYear(x) == VerifierYear(y)
    ensures x == y
  {
    VerifierYearShape(x);
    VerifierYearShape(y);
    PaddedIsInjective(Magnitude(x), Magnitude(y), if 0 <= x <= 9999 then 4 else 6);
  }

  lemma VerifierTimeIsInjective(os: Platform, s: int, t: int)
    requires Faithful(os) && TimeText(os, Verifier, s) == TimeText(os, Verifier, t)
    ensures s == t
  {
    assert |os.rest(s)| == |os.rest(t)|;
    SameSuffix(VerifierYear(os.year(s)), VerifierYear(os.year(t)), os.rest(s), os.rest(t));
    VerifierYearIsInjective(os.year(s), os.year(t));
  }

  // ---- What is hashed ----

  /** The columns the hash covers. */
  datatype Record = Record(id: int, provider: string, eventType: string, credits: string, occurredAt: int)

  datatype Entry = Entry(record: Record, previousHash: Option<seq<byte>>, hash: seq<byte>)

  const HASH_LENGTH: nat := 32

  /** `Buffer.alloc(32)` */
  const GENESIS_HASH: seq<byte> := Zeros(HASH_LENGTH)

  function Zeros(n: nat): (b: seq<byte>)
    ensures |b| == n && forall i :: 0 <= i < n ==> b[i] == 0
  {
    seq(n, i => 0)
  }

  function HashedFields(os: Platform, side: Side, e: Record, previous: seq<byte>): seq<seq<byte>> {
    [os.utf8("v1"), previous, os.utf8(IntText(e.id)), os.utf8(e.provider), os.utf8(e.eventType), os.utf8(e.credits),
     os.utf8(TimeText(os, side, e.occurredAt))]
  }

  /** The bytes that are hashed; none when a field is too long for its length prefix. */
  function Payload(os: Platform, side: Side, e: Record, previous: seq<byte>): Option<seq<byte>> {
    var fields := HashedFields(os, side, e, previous);
    if AllFit(fields) then Some(EncodeFields(fields)) else None
  }

  /** The writer's `||` of seven ledger_hash_field values. */
  function ConcatenatedFields(os: Platform, e: Record, previous: seq<byte>): seq<byte>
    requires AllFit(HashedFields(os, Writer, e, previous))
  {
    var fields := HashedFields(os, Writer, e, previous);
    Field(fields[0]) + Field(fields[1]) + Field(fields[2]) + Field(fields[3]) + Field(fields[4]) + Field(fields[5]) +
    Field(fields[6])
  }

  lemma {:induction false} EncodeSnoc(fields: seq<seq<byte>>, last: seq<byte>)
    requires AllFit(fields) && |last| < LENGTH_LIMIT
    ensures AllFit(fields + [last]) && EncodeFields(fields + [last]) == EncodeFields(fields) + Field(last)
  {
    if fields == [] {
      assert [last][1..] == [] && EncodeFields([last]) == Field(last) + [];
    } else {
      assert (fields + [last])[1..] == fields[1..] + [last];
      EncodeSnoc(fields[1..], last);
      var head, middle, end := Field(fields[0]), EncodeFields(fields[1..]), Field(last);
      assert head + (middle + end) == (head + middle) + end;
    }
  }

  lemma EncodeSeven(f: seq<seq<byte>>)
    requires |f| == 7 && AllFit(f)
    ensures EncodeFields(f) ==
            Field(f[0]) + Field(f[1]) + Field(f[2]) + Field(f[3]) + Field(f[4]) + Field(f[5]) + Field(f[6])
  {
    forall i | 0 <= i < 7
      ensures EncodeFields(f[..i + 1]) == EncodeFields(f[..i]) + Field(f[i])
    {
      assert f[..i + 1] == f[..i] + [f[i]];
      EncodeSnoc(f[..i], f[i]);
    }
    assert f[..7] == f && EncodeFields(f[..0]) == [];
    assert EncodeFields(f[..1]) == Field(f[0]);
    assert EncodeFields(f[..2]) == Field(f[0]) + Field(f[1]);
  }

  /** The writer's concatenation is the encoding of the list of fields. */
  lemma WriterConcatenates(os: Platform, e: Record, previous: seq<byte>)
    requires AllFit(HashedFields(os, Writer, e, previous))
    ensures Payload(os, Writer, e, previous) == Some(ConcatenatedFields(os, e, previous))
  {
    EncodeSeven(HashedFields(os, Writer, e, previous));
  }

  /** Equal payloads, from whichever side, have equal fields. */
  lemma PayloadFields(os: Platform, s: Side, a: Record, p: seq<byte>, t: Side, b: Record, q: seq<byte>)
    requires Faithful(os) && Payload(os, s, a, p).Some? && Payload(os, s, a, p) == Payload(os, t, b, q)
    ensures p == q && a.id == b.id && a.provider == b.provider && a.eventType == b.eventType && a.credits == b.credits
    ensures TimeText(os, s, a.occurredAt) == TimeText(os, t, b.occurredAt)
  {
    var fields, others := HashedFields(os, s, a, p), HashedFields(os, t, b, q);
    DecodeEncoded(fields);
    DecodeEncoded(others);
    assert fields == others;
    assert fields[1] == others[1] && fields[2] == others[2] && fields[3] == others[3];
    assert fields[4] == others[4] && fields[5] == others[5] && fields[6] == others[6];
    IntTextIsInjective(a.id, b.id);
  }

  /** Equal payloads of the verifier carry equal records: no two events share one. */
  lemma PayloadIsInjective(os: Platform, a: Record, p: seq<byte>, b: Record, q: seq<byte>)
    requires Faithful(os) && Payload(os, Verifier, a, p).Some?
    requires Payload(os, Verifier, a, p) == Payload(os, Verifier, b, q)
    ensures p == q && a == b
  {
    PayloadFields(os, Verifier, a, p, Verifier, b, q);
    VerifierTimeIsInjective(os, a.occurredAt, b.occurredAt);
  }

  /** The writer in the database and the verifier in the application hash the same bytes exactly for events in the
      years 1 to 9999. */
  lemma WriterAndVerifierAgreeIff(os: Platform, e: Record, previous: seq<byte>)
    requires Faithful(os) && Payload(os, Writer, e, previous).Some?
    ensures Payload(os, Writer, e, previous) == Payload(os, Verifier, e, previous) <==> YearInRange(os, e.occurredAt)
  {
    TimesAgreeIff(os, e.occurredAt);
    if Payload(os, Writer, e, previous) == Payload(os, Verifier, e, previous) {
      PayloadFields(os, Writer, e, previous, Verifier, e, previous);
    }
    if YearInRange(os, e.occurredAt) {
      assert HashedFields(os, Writer, e, previous) == HashedFields(os, Verifier, e, previous);
    }
  }

  // ---- Chains, over any payload function ----

  datatype Hasher = Hasher(sha256: seq<byte> -> seq<byte>, payload: (Record, seq<byte>) -> Option<seq<byte>>)

  function LedgerHasher(os: Platform, side: Side): Hasher {
    Hasher(os.sha256, (e, previous) => Payload(os, side, e, previous))
  }

  function ComputeLedgerHash(h: Hasher, e: Record, previous: seq<byte>): Option<seq<byte>> {
    match h.payload(e, previous)
    case None => None
    case Some(bytes) => Some(h.sha256(bytes))
  }

  function HeadHash(chain: seq<Entry>): seq<byte> {
    if chain == [] then GENESIS_HASH else chain[|chain| - 1].hash
  }

  function PreviousHash(chain: seq<Entry>, i: nat): seq<byte>
    requires i < |chain|
  {
    if i == 0 then GENESIS_HASH else chain[i - 1].hash
  }

  /** The event continues a chain whose head hash is `previous`; only the first one may leave that out. */
  predicate Links(h: Hasher, e: Entry, previous: seq<byte>, first: bool) {
    && (e.previousHash == Some(previous) || (e.previousHash == None && first))
    && ComputeLedgerHash(h, e.record, previous) == Some(e.hash)
  }

  predicate LinksAt(h: Hasher, chain: seq<Entry>, i: nat)
    requires i < |chain|
  {
    Links(h, chain[i], PreviousHash(chain, i), i == 0)
  }

  predicate Verifies(h: Hasher, chain: seq<Entry>) {
    forall i :: 0 <= i < |chain| ==> LinksAt(h, chain, i)
  }

  datatype RangeError = ValueOutOfRange

  /** Accepts exactly the chains in which every event links to the one before it. */
  method VerifyLedgerChain(h: Hasher, chain: seq<Entry>) returns (accepted: Result<bool, RangeError>)
    ensures accepted == Ok(true) <==> Verifies(h, chain)
    ensures accepted.Err? ==> exists i :: 0 <= i < |chain| && h.payload(chain[i].record, PreviousHash(chain, i)) == None
  {
    var previous := GENESIS_HASH;
    for index := 0 to |chain|
      invariant previous == HeadHash(chain[..index])
      invariant forall i :: 0 <= i < index ==> LinksAt(h, chain, i)
    {
      var event := chain[index];
      assert previous == PreviousHash(chain, index);
      assert LinksAt(h, chain, index) == Links(h, event, previous, index == 0);
      if index > 0 && event.previousHash.None? { return Ok(false); }
      if event.previousHash.Some? && event.previousHash.value != previous { return Ok(false); }
      var expected := ComputeLedgerHash(h, event.record, previous);
      if expected.None? { return Err(ValueOutOfRange); }
      if expected.value != event.hash { return Ok(false); }
      previous := event.hash;
    }
    return Ok(true);
  }

  lemma VerifiesAppend(h: Hasher, chain: seq<Entry>, e: Entry)
    ensures Verifies(h, chain + [e]) <==> Verifies(h, chain) && Links(h, e, HeadHash(chain), chain == [])
  {
    var longer := chain + [e];
    assert forall i :: 0 <= i < |chain| ==> longer[i] == chain[i] && PreviousHash(longer, i) == PreviousHash(chain, i);
    assert forall i :: 0 <= i < |chain| ==> LinksAt(h, longer, i) == LinksAt(h, chain, i);
    assert LinksAt(h, longer, |chain|) == Links(h, e, HeadHash(chain), chain == []);
  }

  // ---- Tamper evidence ----

  predicate SameRecords(a: seq<Entry>, b: seq<Entry>) {
    |a| == |b| && forall i :: 0 <= i < |a| ==> a[i].record == b[i].record && a[i].hash == b[i].hash
  }

  /** What event i hashed. */
  function PayloadAt(h: Hasher, chain: seq<Entry>, i: nat): Option<seq<byte>>
    requires i < |chain|
  {
    h.payload(chain[i].record, PreviousHash(chain, i))
  }

  /** The payloads of event i of one chain and event j of the other differ and have one digest. */
  predicate CollidesAt(h: Hasher, a: seq<Entry>, i: nat, b: seq<Entry>, j: nat) {
    && i < |a| && j < |b| && PayloadAt(h, a, i).Some? && PayloadAt(h, b, j).Some?
    && PayloadAt(h, a, i) != PayloadAt(h, b, j)
    && h.sha256(PayloadAt(h, a, i).value) == h.sha256(PayloadAt(h, b, j).value)
  }

  ghost predicate Collision(h: Hasher, a: seq<Entry>, b: seq<Entry>) {
    exists i: nat, j: nat :: CollidesAt(h, a, i, b, j)
  }

  /** The payload of event i has the all-zero genesis hash as its digest. */
  predicate ZeroAt(h: Hasher, chain: seq<Entry>, i: nat) {
    i < |chain| && PayloadAt(h, chain, i).Some? && h.sha256(PayloadAt(h, chain, i).value) == GENESIS_HASH
  }

  ghost predicate ZeroDigest(h: Hasher, chain: seq<Entry>) {
    exists i: nat :: ZeroAt(h, chain, i)
  }

  ghost predicate InjectivePayload(h: Hasher) {
    forall a, p, b, q {:trigger h.payload(a, p), h.payload(b, q)} ::
      h.payload(a, p).Some? && h.payload(a, p) == h.payload(b, q) ==> p == q && a == b
  }

  lemma LedgerPayloadIsInjective(os: Platform)
    requires Faithful(os)
    ensures InjectivePayload(LedgerHasher(os, Verifier))
  {
    var h := LedgerHasher(os, Verifier);
    forall a, p, b, q | h.payload(a, p).Some? && h.payload(a, p) == h.payload(b, q)
      ensures p == q && a == b
    {
      PayloadIsInjective(os, a, p, b, q);
    }
  }

  lemma {:induction false} SameHeadSameChain(h: Hasher, a: seq<Entry>, b: seq<Entry>)
    requires InjectivePayload(h) && Verifies(h, a) && Verifies(h, b) && HeadHash(a) == HeadHash(b)
    ensures SameRecords(a, b) || Collision(h, a, b) || (|a| != |b| && (ZeroDigest(h, a) || ZeroDigest(h, b)))
    decreases |a| + |b|
  {
    var m, n := |a| - 1, |b| - 1;
    if a == [] && b == [] {
    } else if a == [] {
      assert LinksAt(h, b, n);
      assert ZeroAt(h, b, n);
    } else if b == [] {
      assert LinksAt(h, a, m);
      assert ZeroAt(h, a, m);
    } else {
      assert LinksAt(h, a, m) && LinksAt(h, b, n);
      if PayloadAt(h, a, m) == PayloadAt(h, b, n) {
        assert PreviousHash(a, m) == PreviousHash(b, n) && a[m].record == b[n].record;
        PrefixVerifies(h, a, m);
        PrefixVerifies(h, b, n);
        SameHeadSameChain(h, a[..m], b[..n]);
        FindingsCarryOver(h, a, m, b, n);
      } else {
        assert CollidesAt(h, a, m, b, n);
      }
    }
  }

  lemma PrefixVerifies(h: Hasher, chain: seq<Entry>, n: nat)
    requires Verifies(h, chain) && n < |chain|
    ensures Verifies(h, chain[..n]) && HeadHash(chain[..n]) == PreviousHash(chain, n)
  {
    assert forall i :: 0 <= i < n ==> PreviousHash(chain[..n], i) == PreviousHash(chain, i);
    forall i | 0 <= i < n
      ensures LinksAt(h, chain[..n], i)
    {
      assert LinksAt(h, chain, i);
    }
  }

  lemma FindingsCarryOver(h: Hasher, a: seq<Entry>, m: nat, b: seq<Entry>, n: nat)
    requires m < |a| && n < |b|
    ensures Collision(h, a[..m], b[..n]) ==> Collision(h, a, b)
    ensures ZeroDigest(h, a[..m]) ==> ZeroDigest(h, a)
    ensures ZeroDigest(h, b[..n]) ==> ZeroDigest(h, b)
  {
    assert forall i :: 0 <= i < m ==> PayloadAt(h, a[..m], i) == PayloadAt(h, a, i);
    assert forall j :: 0 <= j < n ==> PayloadAt(h, b[..n], j) == PayloadAt(h, b, j);
    if Collision(h, a[..m], b[..n]) {
      var i: nat, j: nat :| CollidesAt(h, a[..m], i, b[..n], j);
      assert CollidesAt(h, a, i, b, j);
    }
    if ZeroDigest(h, a[..m]) {
      var i: nat :| ZeroAt(h, a[..m], i);
      assert ZeroAt(h, a, i);
    }
    if ZeroDigest(h, b[..n]) {
      var j: nat :| ZeroAt(h, b[..n], j);
      assert ZeroAt(h, b, j);
    }
  }

  /** Two accepted chains with the same head hash record the same events, unless the payloads they contain break
      SHA-256: by a collision, or, where the lengths differ, by a digest that equals the genesis hash. */
  lemma TamperEvidence(os: Platform, a: seq<Entry>, b: seq<Entry>)
    requires Faithful(os)
    requires Verifies(LedgerHasher(os, Verifier), a) && Verifies(LedgerHasher(os, Verifier), b)
    requires HeadHash(a) == HeadHash(b)
    ensures var h := LedgerHasher(os, Verifier);
            SameRecords(a, b) || Collision(h, a, b) || (|a| != |b| && (ZeroDigest(h, a) || ZeroDigest(h, b)))
  {
    LedgerPayloadIsInjective(os);
    SameHeadSameChain(LedgerHasher(os, Verifier), a, b);
  }

  // ---- The writer's chains before the verifier ----

  /** The event hashes to one digest although the two sides spell its time differently. */
  predicate TwoTextsAt(os: Platform, chain: seq<Entry>, i: nat) {
    i < |chain| &&
    var written, expected :=
      PayloadAt(LedgerHasher(os, Writer), chain, i), PayloadAt(LedgerHasher(os, Verifier), chain, i);
    written.Some? && expected.Some? && written != expected && os.sha256(written.value) == os.sha256(expected.value)
  }

  ghost predicate TwoTextsOneDigest(os: Platform, chain: seq<Entry>) {
    exists i: nat :: TwoTextsAt(os, chain, i)
  }

  lemma LinksAgree(os: Platform, chain: seq<Entry>, i: nat)
    requires Faithful(os) && i < |chain| && LinksAt(LedgerHasher(os, Writer), chain, i)
    ensures YearInRange(os, chain[i].record.occurredAt) ==> LinksAt(LedgerHasher(os, Verifier), chain, i)
    ensures LinksAt(LedgerHasher(os, Verifier), chain, i) ==>
              YearInRange(os, chain[i].record.occurredAt) || TwoTextsAt(os, chain, i)
  {
    WriterAndVerifierAgreeIff(os, chain[i].record, PreviousHash(chain, i));
  }

  /** A chain under the writer's hash is accepted by the verifier exactly if all its events lie in the years 1 to 9999,
      up to two texts with one digest. */
  lemma WriterChainIsAcceptedIff(os: Platform, chain: seq<Entry>)
    requires Faithful(os) && Verifies(LedgerHasher(os, Writer), chain)
    ensures (forall i :: 0 <= i < |chain| ==> YearInRange(os, chain[i].record.occurredAt)) ==>
              Verifies(LedgerHasher(os, Verifier), chain)
    ensures Verifies(LedgerHasher(os, Verifier), chain) ==>
              (forall i :: 0 <= i < |chain| ==> YearInRange(os, chain[i].record.occurredAt)) ||
              TwoTextsOneDigest(os, chain)
  {
    forall i | 0 <= i < |chain|
      ensures YearInRange(os, chain[i].record.occurredAt) ==> LinksAt(LedgerHasher(os, Verifier), chain, i)
      ensures LinksAt(LedgerHasher(os, Verifier), chain, i) ==>
                YearInRange(os, chain[i].record.occurredAt) || TwoTextsAt(os, chain, i)
    {
      assert LinksAt(LedgerHasher(os, Writer), chain, i);
      LinksAgree(os, chain, i);
    }
  }
}
