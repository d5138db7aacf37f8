// The digest of an audit event and the message a checkpoint signs
// (src/services/audit_integrity.rs). Strings are byte strings, as in CanonicalJson.
module AuditIntegrity {
  import opened Text

  const GENESIS_HASH := "0000000000000000000000000000000000000000000000000000000000000000"

  type Byte = b: nat | b < 256

  // SHA-256, as far as this model knows it: some function from texts to bytes. What is
  // claimed of it is stated where it is needed, never assumed of every text.
  type Sha = string -> seq<Byte>

  datatype DigestInput = DigestInput(
    chainId: string,
    seqNo: int,
    previousHash: string,
    action: string,
    category: string,
    status: string,
    actorIdentityId: string,
    ipAddress: string,
    userAgent: string,
    detailsJson: string,
    timestamp: int)

  function Fields(d: DigestInput): (fs: seq<string>) {
    [d.chainId, IntText(d.seqNo), d.previousHash, d.action, d.category, d.status,
     d.actorIdentityId, d.ipAddress, d.userAgent, d.detailsJson, IntText(d.timestamp)]
  }

  // One field as it is fed to the hasher: its length, a colon, the field, a bar.
  function Frame(field: string): (r: string) {
    NatText(|field|) + (":" + (field + "|"))
  }

  function Stream(fields: seq<string>): (r: string) {
    if fields == [] then "" else Frame(fields[0]) + Stream(fields[1..])
  }

  function DigestStream(d: DigestInput): (r: string) {
    Stream(Fields(d))
  }

  function Hex(bytes: seq<Byte>): (s: string)
    ensures |s| == 2 * |bytes| && '|' !in s
  {
    if bytes == [] then ""
    else [HexDigit(bytes[0] / 16), HexDigit(bytes[0] % 16)] + Hex(bytes[1..])
  }

  function EventHash(sha: Sha, d: DigestInput): (r: string) {
    Hex(sha(DigestStream(d)))
  }

  class Hasher {
    var fed: string

    constructor ()
      ensures fed == ""
    {
      fed := "";
    }

    method Update(bytes: string)
      modifies this
      ensures fed == old(fed) + bytes
    {
      fed := fed + bytes;
    }
  }

  lemma {:induction false} StreamAppends(fields: seq<string>, field: string)
    ensures Stream(fields + [field]) == Stream(fields) + Frame(field)
  {
    if fields == [] {
      assert Stream([field]) == Frame(field) + Stream([]);
    } else {
      assert (fields + [field])[1..] == fields[1..] + [field];
      StreamAppends(fields[1..], field);
    }
  }

  // What is hashed: the eleven fields in this order, each with its length before it and a bar
  // after it.
  lemma StreamInOrder(d: DigestInput)
    ensures DigestStream(d)
      == Frame(d.chainId) + Frame(IntText(d.seqNo)) + Frame(d.previousHash) + Frame(d.action) + Frame(d.category)
         + Frame(d.status) + Frame(d.actorIdentityId) + Frame(d.ipAddress) + Frame(d.userAgent)
         + Frame(d.detailsJson) + Frame(IntText(d.timestamp))
  {
    hide Frame;
    var fields := Fields(d);
    forall k | 0 <= k < 11 ensures Stream(fields[..k + 1]) == Stream(fields[..k]) + Frame(fields[k]) {
      assert fields[..k + 1] == fields[..k] + [fields[k]];
      StreamAppends(fields[..k], fields[k]);
    }
    assert fields[..11] == fields;
    assert "" + Frame(d.chainId) == Frame(d.chainId);
    hide Stream;
    assert Stream(fields[..3]) == Stream(fields[..0]) + Frame(fields[0]) + Frame(fields[1]) + Frame(fields[2]);
    assert Stream(fields[..6]) == Stream(fields[..3]) + Frame(fields[3]) + Frame(fields[4]) + Frame(fields[5]);
    assert Stream(fields[..9]) == Stream(fields[..6]) + Frame(fields[6]) + Frame(fields[7]) + Frame(fields[8]);
    assert Stream(fields[..11]) == Stream(fields[..9]) + Frame(fields[9]) + Frame(fields[10]);
  }

  // The length is that of the text, in decimal.
  lemma FrameOfEmptyAndLong()
    ensures Frame("") == "0:|" && Frame("curl/8.0") == "8:curl/8.0|" && Frame("203.0.113.7") == "11:203.0.113.7|"
  {
    assert NatText(11) == NatText(1) + [DigitChar(1)] == "11";
  }

  // Two lower-case digits for each byte.
  lemma HexOfBytes()
    ensures Hex([0, 10, 159, 255]) == "000a9fff"
  {
    var bytes: seq<Byte> := [0, 10, 159, 255];
    assert bytes[1..] == [10, 159, 255] && bytes[1..][1..] == [159, 255] && bytes[1..][1..][1..] == [255];
    assert bytes[1..][1..][1..][1..] == [];
  }

  lemma FrameParts(fed: string, field: string)
    ensures fed + NatText(|field|) + ":" + field + "|" == fed + Frame(field)
  {
    var n := NatText(|field|);
    Regroup(fed, n, field);
  }

  lemma Regroup(fed: string, n: string, field: string)
    ensures fed + n + ":" + field + "|" == fed + (n + (":" + (field + "|")))
  {
  }

  // Feeds the eleven fields piece by piece and finishes the hash.
  method ComputeEventHash(sha: Sha, d: DigestInput) returns (hash: string)
    ensures hash == EventHash(sha, d)
  {
    var fields := Fields(d);
    var hasher := new Hasher();
    for i := 0 to |fields|
      invariant hasher.fed == Stream(fields[..i])
    {
      assert fields[..i + 1] == fields[..i] + [fields[i]];
      StreamAppends(fields[..i], fields[i]);
      FrameParts(hasher.fed, fields[i]);
      hasher.Update(NatText(|fields[i]|));
      hasher.Update(":");
      hasher.Update(fields[i]);
      hasher.Update("|");
    }
    assert fields[..|fields|] == fields;
    hash := Hex(sha(hasher.fed));
  }

  // ---------------------------------------------------------------------------
  // Framing is injective.

  lemma FrameReadsBack(f: string, g: string, x: string, y: string)
    requires Frame(f) + x == Frame(g) + y
    ensures f == g && x == y
  {
    var a, b := ":" + (f + ("|" + x)), ":" + (g + ("|" + y));
    RegroupFrame(NatText(|f|), f, x);
    RegroupFrame(NatText(|g|), g, y);
    NatTextReadsBack(|f|, |g|, a, b);
    Cancel(":", f + ("|" + x), g + ("|" + y));
    CancelEqualLengths(f, g, "|" + x, "|" + y);
    Cancel("|", x, y);
  }

  lemma RegroupFrame(n: string, f: string, x: string)
    ensures n + (":" + (f + "|")) + x == n + (":" + (f + ("|" + x)))
  {
  }

  lemma EmptyStream(fs: seq<string>)
    ensures Stream(fs) == "" <==> fs == []
  {
    if fs != [] {
      assert |Frame(fs[0])| > 0;
    }
  }

  lemma {:induction false} StreamReadsBack(fs: seq<string>, gs: seq<string>)
    requires Stream(fs) == Stream(gs)
    ensures fs == gs
  {
    if fs == [] || gs == [] {
      EmptyStream(fs);
      EmptyStream(gs);
    } else {
      FrameReadsBack(fs[0], gs[0], Stream(fs[1..]), Stream(gs[1..]));
      StreamReadsBack(fs[1..], gs[1..]);
      assert fs == [fs[0]] + fs[1..] && gs == [gs[0]] + gs[1..];
    }
  }

  lemma IntTextIsInjective(i: int, j: int)
    requires IntText(i) == IntText(j)
    ensures i == j
  {
    assert IntText(i) + "" == IntText(j) + "";
    IntTextReadsBack(i, j, "", "");
  }

  // The bytes fed to the hash determine all eleven fields, whatever they contain.
  lemma FramingIsInjective(d: DigestInput, e: DigestInput)
    ensures DigestStream(d) == DigestStream(e) <==> d == e
  {
    if DigestStream(d) == DigestStream(e) {
      StreamReadsBack(Fields(d), Fields(e));
      var fs, gs := Fields(d), Fields(e);
      assert fs[0] == gs[0] && fs[1] == gs[1] && fs[2] == gs[2] && fs[3] == gs[3];
      assert fs[4] == gs[4] && fs[5] == gs[5] && fs[6] == gs[6] && fs[7] == gs[7];
      assert fs[8] == gs[8] && fs[9] == gs[9] && fs[10] == gs[10];
      IntTextIsInjective(d.seqNo, e.seqNo);
      IntTextIsInjective(d.timestamp, e.timestamp);
    }
  }

  lemma {:induction false} HexIsInjective(a: seq<Byte>, b: seq<Byte>)
    requires Hex(a) == Hex(b)
    ensures a == b
  {
    if a != [] && b != [] {
      var s, t := Hex(a), Hex(b);
      assert s[0] == HexDigit(a[0] / 16) && s[1] == HexDigit(a[0] % 16);
      assert t[0] == HexDigit(b[0] / 16) && t[1] == HexDigit(b[0] % 16);
      assert s[2..] == Hex(a[1..]) && t[2..] == Hex(b[1..]);
      HexIsInjective(a[1..], b[1..]);
      assert a == [a[0]] + a[1..] && b == [b[0]] + b[1..];
    }
  }

  // Two events with the same hash are the same event, or the hash has collided on them.
  lemma HashDeterminesEvent(sha: Sha, d: DigestInput, e: DigestInput)
    requires EventHash(sha, d) == EventHash(sha, e)
    ensures d == e
      || (DigestStream(d) != DigestStream(e) && sha(DigestStream(d)) == sha(DigestStream(e)))
  {
    FramingIsInjective(d, e);
    HexIsInjective(sha(DigestStream(d)), sha(DigestStream(e)));
  }

  // ---------------------------------------------------------------------------
  // Checkpoints.

  datatype Checkpoint = Checkpoint(
    chainId: string,
    seqTo: int,
    headHash: string,
    createdAt: int,
    publicKey: string,
    signature: string)

  // Ed25519, idealised: signing, the public half of a key, and the check.
  datatype Scheme = Scheme(
    publicKey: string -> string,
    sign: (string, string) -> string,
    verify: (string, string, string) -> bool)
  {
    // What the key's owner signs, everybody can verify.
    ghost predicate Correct() {
      forall key, msg :: verify(publicKey(key), sign(key, msg), msg)
    }
  }

  const DOMAIN := "soulauth-audit-checkpoint/v1"

  function CheckpointMessage(chainId: string, seqTo: int, headHash: string, createdAt: int): (r: string) {
    DOMAIN + "|" + chainId + "|" + IntText(seqTo) + "|" + headHash + "|" + IntText(createdAt)
  }

  function MessageOf(cp: Checkpoint): (r: string) {
    CheckpointMessage(cp.chainId, cp.seqTo, cp.headHash, cp.createdAt)
  }

  predicate VerifyCheckpoint(scheme: Scheme, cp: Checkpoint) {
    scheme.verify(cp.publicKey, cp.signature, MessageOf(cp))
  }

  // The part after the last bar is read back unambiguously.
  lemma LastBarReadsBack(a: string, b: string, x: string, y: string)
    requires '|' !in x && '|' !in y
    requires a + "|" + x == b + "|" + y
    ensures a == b && x == y
  {
    var t := a + "|" + x;
    assert t[|a|] == '|' && t[|b|] == '|';
    assert forall i | |a| < i < |t| :: t[i] == x[i - |a| - 1];
    assert forall i | |b| < i < |t| :: t[i] == y[i - |b| - 1];
    assert |a| == |b|;
    assert a == t[..|a|] && b == t[..|b|] && x == t[|a| + 1..] && y == t[|b| + 1..];
  }

  lemma {:induction false} NumbersHaveNoBars(i: int)
    ensures '|' !in IntText(i)
  {
    var digits := NatText(if i < 0 then -i else i);
    assert AllDigits(digits);
  }

  // A signed message fixes the checkpoint, provided neither head hash contains a bar.
  // Hash texts never do (Hex).
  lemma CheckpointMessageReadsBack(
      chain: string, seqTo: int, head: string, createdAt: int,
      chain': string, seqTo': int, head': string, createdAt': int)
    requires '|' !in head && '|' !in head'
    requires CheckpointMessage(chain, seqTo, head, createdAt)
      == CheckpointMessage(chain', seqTo', head', createdAt')
    ensures chain == chain' && seqTo == seqTo' && head == head' && createdAt == createdAt'
  {
    NumbersHaveNoBars(createdAt);
    NumbersHaveNoBars(createdAt');
    NumbersHaveNoBars(seqTo);
    NumbersHaveNoBars(seqTo');
    var c, c' := DOMAIN + "|" + chain, DOMAIN + "|" + chain';
    LastBarReadsBack(c + "|" + IntText(seqTo) + "|" + head, c' + "|" + IntText(seqTo') + "|" + head',
                     IntText(createdAt), IntText(createdAt'));
    LastBarReadsBack(c + "|" + IntText(seqTo), c' + "|" + IntText(seqTo'), head, head');
    LastBarReadsBack(c, c', IntText(seqTo), IntText(seqTo'));
    Cancel(DOMAIN + "|", chain, chain');
    IntTextIsInjective(seqTo, seqTo');
    IntTextIsInjective(createdAt, createdAt');
  }

  // A head hash that can be read with its beginning as part of the chain: it starts with a
  // number before a bar, or has one between bars, and ends in the other head hash.
  ghost predicate SplitsAt(head: string, seqTo: int, tail: string, chain: string, seqNo: int, rest: string) {
    || (head == IntText(seqTo) + "|" + tail && rest == chain + "|" + IntText(seqNo))
    || exists q: string ::
         head == q + "|" + IntText(seqTo) + "|" + tail && rest == chain + "|" + IntText(seqNo) + "|" + q
  }

  // Exactly which checkpoints share a message, the one with the longer head hash first:
  // equal ones, and those where the longer head splits.
  lemma SameMessageIff(chain: string, seqTo: int, head: string, createdAt: int,
                       chain': string, seqTo': int, head': string, createdAt': int)
    requires |head'| <= |head|
    ensures CheckpointMessage(chain, seqTo, head, createdAt) == CheckpointMessage(chain', seqTo', head', createdAt')
      <==> createdAt == createdAt'
           && ((chain == chain' && seqTo == seqTo' && head == head')
               || SplitsAt(head, seqTo', head', chain, seqTo, chain'))
  {
    if CheckpointMessage(chain, seqTo, head, createdAt) == CheckpointMessage(chain', seqTo', head', createdAt') {
      MessageSplits(chain, seqTo, head, createdAt, chain', seqTo', head', createdAt');
    }
    if createdAt == createdAt' && SplitsAt(head, seqTo', head', chain, seqTo, chain') {
      SplitGivesMessage(chain, seqTo, head, createdAt, chain', seqTo', head');
    }
  }

  lemma SplitGivesMessage(chain: string, seqTo: int, head: string, createdAt: int,
                          chain': string, seqTo': int, head': string)
    requires SplitsAt(head, seqTo', head', chain, seqTo, chain')
    ensures CheckpointMessage(chain, seqTo, head, createdAt) == CheckpointMessage(chain', seqTo', head', createdAt)
  {
    hide IntText;
    var s, n, t := IntText(seqTo), IntText(seqTo'), IntText(createdAt);
    if head == n + "|" + head' && chain' == chain + "|" + s {
      RegroupMessage(DOMAIN + "|", chain, s, n, head', t);
    } else {
      var q: string :| head == q + "|" + n + "|" + head' && chain' == chain + "|" + s + "|" + q;
      RegroupLonger(DOMAIN + "|", chain, s, q, n, head', t);
    }
  }

  lemma RegroupLonger(p: string, c: string, s: string, q: string, n: string, h: string, t: string)
    ensures p + c + "|" + s + "|" + (q + "|" + n + "|" + h) + "|" + t
      == p + (c + "|" + s + "|" + q) + "|" + n + "|" + h + "|" + t
  {
  }

  // The text before the last bar and after it, when the part after it may hold bars itself:
  // the longer of two ends in the shorter.
  lemma LongerEndsInShorter(a: string, b: string, x: string, y: string)
    requires a + "|" + x == b + "|" + y && |y| < |x|
    ensures exists p: string :: x == p + "|" + y && b == a + "|" + p
  {
    var t := a + "|" + x;
    var p := x[..|x| - |y| - 1];
    assert t == b + "|" + y && |b| == |a| + 1 + |p|;
    assert x[|x| - |y| - 1] == t[|b|] == '|';
    assert x[|x| - |y|..] == t[|b| + 1..] == y;
    assert x == p + "|" + y;
    assert b == t[..|b|] == a + "|" + p;
  }

  // A bar in a text: what comes after the last one holds none.
  lemma {:induction false} LastBar(p: string) returns (q: string, last: string)
    requires '|' in p
    ensures p == q + "|" + last && '|' !in last
  {
    var n := |p| - 1;
    if p[n] == '|' {
      q, last := p[..n], "";
    } else {
      var q', last' := LastBar(p[..n]);
      q, last := q', last' + [p[n]];
      assert p == p[..n] + [p[n]];
    }
  }

  lemma EqualLengthsReadBack(a: string, b: string, x: string, y: string)
    requires a + "|" + x == b + "|" + y && |x| == |y|
    ensures a == b && x == y
  {
    var t := a + "|" + x;
    assert |a| == |b|;
    assert a == t[..|a|] && b == t[..|b|] && x == t[|a| + 1..] && y == t[|b| + 1..];
  }

  // What is left of the messages once the times are taken off.
  lemma MessageSplits(chain: string, seqTo: int, head: string, createdAt: int,
                      chain': string, seqTo': int, head': string, createdAt': int)
    requires |head'| <= |head|
    requires CheckpointMessage(chain, seqTo, head, createdAt) == CheckpointMessage(chain', seqTo', head', createdAt')
    ensures createdAt == createdAt'
    ensures (chain == chain' && seqTo == seqTo' && head == head') || SplitsAt(head, seqTo', head', chain, seqTo, chain')
  {
    NumbersHaveNoBars(createdAt);
    NumbersHaveNoBars(createdAt');
    NumbersHaveNoBars(seqTo);
    NumbersHaveNoBars(seqTo');
    var c, c' := DOMAIN + "|" + chain, DOMAIN + "|" + chain';
    var s, n := IntText(seqTo), IntText(seqTo');
    LastBarReadsBack(c + "|" + s + "|" + head, c' + "|" + n + "|" + head', IntText(createdAt), IntText(createdAt'));
    IntTextIsInjective(createdAt, createdAt');
    hide IntText;
    if |head'| == |head| {
      EqualLengthsReadBack(c + "|" + s, c' + "|" + n, head, head');
      LastBarReadsBack(c, c', s, n);
      IntTextIsInjective(seqTo, seqTo');
      Cancel(DOMAIN + "|", chain, chain');
    } else {
      LongerEndsInShorter(c + "|" + s, c' + "|" + n, head, head');
      var p: string :| head == p + "|" + head' && c' + "|" + n == c + "|" + s + "|" + p;
      PrefixSplits(chain, s, p, chain', n);
      if p != n {
        var q: string :| p == q + "|" + n && chain' == chain + "|" + s + "|" + q;
        assert head == q + "|" + n + "|" + head';
      }
    }
  }

  lemma PrefixSplits(chain: string, s: string, p: string, chain': string, n: string)
    requires '|' !in s && '|' !in n
    requires DOMAIN + "|" + chain' + "|" + n == DOMAIN + "|" + chain + "|" + s + "|" + p
    ensures (p == n && chain' == chain + "|" + s)
      || exists q: string :: p == q + "|" + n && chain' == chain + "|" + s + "|" + q
  {
    var c, c' := DOMAIN + "|" + chain, DOMAIN + "|" + chain';
    if '|' in p {
      var q, last := LastBar(p);
      Longer(c + "|" + s, q, last);
      LastBarReadsBack(c', c + "|" + s + "|" + q, n, last);
      Tail(DOMAIN + "|", chain, "|" + s + "|" + q, chain');
      assert chain' == chain + "|" + s + "|" + q;
    } else {
      LastBarReadsBack(c', c + "|" + s, n, p);
      Tail(DOMAIN + "|", chain, "|" + s, chain');
      assert chain' == chain + "|" + s;
    }
  }

  lemma Longer(a: string, q: string, last: string)
    ensures a + "|" + (q + "|" + last) == (a + "|" + q) + "|" + last
  {
  }

  lemma Tail(d: string, chain: string, more: string, chain': string)
    requires d + chain' == (d + chain) + more
    ensures chain' == chain + more
  {
    Cancel(d, chain', chain + more);
    assert d + (chain + more) == (d + chain) + more;
  }

  // Head hashes of one length, as all real ones are, never confuse two checkpoints.
  lemma EqualLengthHeadsReadBack(chain: string, seqTo: int, head: string, createdAt: int,
                                 chain': string, seqTo': int, head': string, createdAt': int)
    requires |head| == |head'|
    requires CheckpointMessage(chain, seqTo, head, createdAt) == CheckpointMessage(chain', seqTo', head', createdAt')
    ensures chain == chain' && seqTo == seqTo' && head == head' && createdAt == createdAt'
  {
    hide CheckpointMessage;
    SameMessageIff(chain, seqTo, head, createdAt, chain', seqTo', head', createdAt');
  }

  // Some head hashes do: the fields carry no lengths, so a number and a bar at the start of
  // a head can be read as part of the chain.
  lemma CheckpointMessageIsAmbiguousOnBars(chain: string, seqTo: int, k: int, head: string, createdAt: int)
    ensures CheckpointMessage(chain, seqTo, IntText(k) + "|" + head, createdAt)
      == CheckpointMessage(chain + "|" + IntText(seqTo), k, head, createdAt)
    ensures chain != chain + "|" + IntText(seqTo)
  {
    var s, n, t := IntText(seqTo), IntText(k), IntText(createdAt);
    RegroupMessage(DOMAIN + "|", chain, s, n, head, t);
    assert |chain + "|" + s| > |chain|;
  }

  lemma RegroupMessage(p: string, c: string, s: string, n: string, h: string, t: string)
    ensures p + c + "|" + s + "|" + (n + "|" + h) + "|" + t
      == p + (c + "|" + s) + "|" + n + "|" + h + "|" + t
  {
  }
}
