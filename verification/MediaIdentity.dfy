/** Object keys and authenticated contexts of stored media. Text is handled as the
    bytes of its UTF-8 form, one char of a string per byte. */
module MediaIdentity {
  import opened Prelude
  import opened Text
  import Decimal

  type Bytes = string

  // -------------------------------------------------------------------- keys

  predicate IdByte(c: char) {
    'a' <= c <= 'z' || 'A' <= c <= 'Z' || '0' <= c <= '9' || c == '-' || c == '_'
  }

  /** validate_user_id and validate_asset_id accept the same identifiers. */
  predicate ValidId(id: Bytes) {
    0 < |id| <= 128 && forall i | 0 <= i < |id| :: IdByte(id[i])
  }

  datatype Namespace = Capture | Recording

  function Root(ns: Namespace): Bytes {
    if ns.Capture? then "raw/" else "recordings/"
  }

  function ObjectKey(ns: Namespace, user: Bytes, asset: Bytes): Result<Bytes> {
    if !ValidId(user) then Err("invalid user_id")
    else if !ValidId(asset) then Err("invalid asset identifier")
    else Ok(Root(ns) + user + "/" + asset + ".enc")
  }

  /** RoutedMediaGcsClient::provider. */
  function Route(name: Bytes): Result<Namespace> {
    if "recordings/" <= name then Ok(Recording)
    else if "raw/" <= name then Ok(Capture)
    else Err("invalid media object namespace")
  }

  lemma IdsLackSeparators(id: Bytes)
    requires ValidId(id)
    ensures '/' !in id && '.' !in id && '\0' !in id
  {
  }

  lemma KeyRest(user: Bytes, asset: Bytes, user': Bytes, asset': Bytes)
    requires ValidId(user) && ValidId(asset) && ValidId(user') && ValidId(asset')
    requires Tail(user, asset) <= Tail(user', asset')
    ensures user == user' && asset == asset'
  {
    IdsLackSeparators(user);
    IdsLackSeparators(user');
    IdsLackSeparators(asset);
    IdsLackSeparators(asset');
    assert Tail(user, asset) == user + ['/'] + (asset + ".enc");
    assert Tail(user', asset') == user' + ['/'] + (asset' + ".enc");
    SplitAt('/', user, asset + ".enc", user', asset' + ".enc");
    assert asset + ".enc" == asset + ['.'] + "enc" && asset' + ".enc" == asset' + ['.'] + "enc";
    SplitAt('.', asset, "enc", asset', "enc");
  }

  lemma RootsDiffer(ns: Namespace, rest: Bytes, ns': Namespace, rest': Bytes)
    requires Root(ns) + rest <= Root(ns') + rest'
    ensures ns == ns' && rest <= rest'
  {
    var k, k' := Root(ns) + rest, Root(ns') + rest';
    assert k[1] == Root(ns)[1] && k'[1] == Root(ns')[1];
    assert rest == k[|Root(ns)|..] && rest' == k'[|Root(ns')|..];
  }

  /** What follows the namespace. */
  function Tail(user: Bytes, asset: Bytes): Bytes {
    user + "/" + asset + ".enc"
  }

  lemma KeyIs(ns: Namespace, user: Bytes, asset: Bytes)
    requires ObjectKey(ns, user, asset).Ok?
    ensures ObjectKey(ns, user, asset).value == Root(ns) + Tail(user, asset)
  {
    assert Root(ns) + user + "/" + asset + ".enc" == Root(ns) + Tail(user, asset);
  }

  /** Canonical keys name one object each: a key that is a prefix of another is the
      same key for the same namespace, account and asset. In particular listing by a
      canonical key as prefix never reaches a different canonical key. */
  lemma KeysPrefixFree(ns: Namespace, user: Bytes, asset: Bytes, ns': Namespace, user': Bytes, asset': Bytes)
    requires ObjectKey(ns, user, asset).Ok? && ObjectKey(ns', user', asset').Ok?
    ensures ObjectKey(ns, user, asset).value <= ObjectKey(ns', user', asset').value
            <==> ns == ns' && user == user' && asset == asset'
  {
    KeyIs(ns, user, asset);
    KeyIs(ns', user', asset');
    if ObjectKey(ns, user, asset).value <= ObjectKey(ns', user', asset').value {
      RootsDiffer(ns, Tail(user, asset), ns', Tail(user', asset'));
      KeyRest(user, asset, user', asset');
    }
  }

  lemma RootRoutes(ns: Namespace, rest: Bytes)
    ensures Route(Root(ns) + rest) == Ok(ns)
  {
    var k := Root(ns) + rest;
    assert Root(ns) <= k;
    assert k[1] == Root(ns)[1];
  }

  /** Each canonical key is served by the provider of its own namespace. */
  lemma KeysRouteHome(ns: Namespace, user: Bytes, asset: Bytes)
    requires ObjectKey(ns, user, asset).Ok?
    ensures Route(ObjectKey(ns, user, asset).value) == Ok(ns)
  {
    KeyIs(ns, user, asset);
    RootRoutes(ns, Tail(user, asset));
  }

  // ----------------------------------------------------------------- framing

  /** Big-endian bytes of n in a field of the given width. */
  function BigEndian(n: nat, width: nat): Bytes {
    if width == 0 then [] else BigEndian(n / 256, width - 1) + [(n % 256) as char]
  }

  function Range(width: nat): nat {
    if width == 0 then 1 else 256 * Range(width - 1)
  }

  lemma {:induction false} BigEndianLength(n: nat, width: nat)
    ensures |BigEndian(n, width)| == width
  {
    if width > 0 { BigEndianLength(n / 256, width - 1); }
  }

  lemma {:induction false} BigEndianInjective(m: nat, n: nat, width: nat)
    requires m < Range(width) && n < Range(width) && BigEndian(m, width) == BigEndian(n, width)
    ensures m == n
  {
    if width > 0 {
      var a, b := BigEndian(m / 256, width - 1), BigEndian(n / 256, width - 1);
      BigEndianLength(m / 256, width - 1);
      BigEndianLength(n / 256, width - 1);
      assert BigEndian(m, width)[width - 1] == (m % 256) as char && BigEndian(n, width)[width - 1] == (n % 256) as char;
      assert a == BigEndian(m, width)[..width - 1] && b == BigEndian(n, width)[..width - 1];
      BigEndianInjective(m / 256, n / 256, width - 1);
    }
  }

  /** append_field: a four-byte length, then the bytes. */
  function Frame(field: Bytes): Bytes {
    BigEndian(|field|, 4) + field
  }

  function Frames(fields: seq<Bytes>): Bytes {
    if fields == [] then [] else Frame(fields[0]) + Frames(fields[1..])
  }

  lemma FrameSplits(x: Bytes, s: Bytes, y: Bytes, t: Bytes)
    requires |x| < Range(4) && |y| < Range(4) && Frame(x) + s == Frame(y) + t
    ensures x == y && s == t
  {
    BigEndianLength(|x|, 4);
    BigEndianLength(|y|, 4);
    var whole := Frame(x) + s;
    assert BigEndian(|x|, 4) == whole[..4] == BigEndian(|y|, 4);
    BigEndianInjective(|x|, |y|, 4);
    assert x == whole[4..4 + |x|] == y;
    assert s == whole[4 + |x|..] == t;
  }

  lemma FramesFirst(fields: seq<Bytes>, rest: Bytes)
    requires fields != []
    ensures Frames(fields) + rest == Frame(fields[0]) + (Frames(fields[1..]) + rest)
  {
  }

  lemma {:induction false} FramesSplit(xs: seq<Bytes>, s: Bytes, ys: seq<Bytes>, t: Bytes)
    requires |xs| == |ys| && Frames(xs) + s == Frames(ys) + t
    requires forall i | 0 <= i < |xs| :: |xs[i]| < Range(4) && |ys[i]| < Range(4)
    ensures xs == ys && s == t
  {
    if xs == [] {
      assert Frames(xs) + s == s && Frames(ys) + t == t;
    } else {
      FramesFirst(xs, s);
      FramesFirst(ys, t);
      FrameSplits(xs[0], Frames(xs[1..]) + s, ys[0], Frames(ys[1..]) + t);
      FramesSplit(xs[1..], s, ys[1..], t);
      assert xs == [xs[0]] + xs[1..] && ys == [ys[0]] + ys[1..];
    }
  }

  // ---------------------------------------------------------------- contexts

  /** The facts a durable recording segment is sealed with. */
  datatype Facts = Facts(
    user: Bytes, objectKey: Bytes, keyEpoch: int, policyEpoch: Bytes, event: Bytes, asset: Bytes,
    session: Bytes, stream: Bytes, codec: Bytes, byteLength: int, sha256: Bytes)

  predicate PlainText(value: Bytes) {
    0 < |value| <= 128 && forall i | 0 <= i < |value| :: ' ' <= value[i] && value[i] != '\U{7F}'
  }

  predicate Acceptable(f: Facts) {
    && ValidId(f.user)
    && ObjectKey(Recording, f.user, f.asset) == Ok(f.objectKey)
    && 0 < f.keyEpoch <= I64_MAX
    && |f.policyEpoch| == 68 && "rpe_" <= f.policyEpoch
    && (forall i | 4 <= i < 68 :: HexDigit(f.policyEpoch[i]))
    && 0 < f.byteLength <= I64_MAX
    && |f.sha256| == 64 && (forall i | 0 <= i < 64 :: HexDigit(f.sha256[i]))
    && PlainText(f.event) && PlainText(f.session) && PlainText(f.stream) && PlainText(f.codec)
  }

  function Lower(c: char): char {
    if 'A' <= c <= 'Z' then (c as int + 32) as char else c
  }

  function ToLower(s: Bytes): (r: Bytes)
    ensures |r| == |s|
  {
    seq(|s|, i requires 0 <= i < |s| => Lower(s[i]))
  }

  const RECORDING_HEADER: Bytes := "kioku.recording-media.v1\0"

  function ContextFields(f: Facts): seq<Bytes>
    requires f.byteLength >= 0
  {
    [f.user, f.objectKey, f.policyEpoch, f.event, f.asset, f.session, f.stream, f.codec,
     Decimal.Text(f.byteLength), ToLower(f.sha256)]
  }

  /** recording_media_blob_context. The framing refuses fields of 2^32 bytes or more. */
  function RecordingContext(f: Facts): Result<Bytes> {
    if !Acceptable(f) then Err("invalid durable recording encryption context")
    else if exists i | 0 <= i < 10 :: |ContextFields(f)[i]| >= Range(4)
      then Err("durable recording context is too large")
    else Ok(RECORDING_HEADER + Frames(ContextFields(f)) + BigEndian(f.keyEpoch, 8))
  }

  lemma {:induction false} FramesSnoc(fields: seq<Bytes>, last: Bytes)
    ensures Frames(fields + [last]) == Frames(fields) + Frame(last)
  {
    if fields == [] {
      assert fields + [last] == [last] && [last][1..] == [];
    } else {
      FramesSnoc(fields[1..], last);
      var more := fields + [last];
      assert more[0] == fields[0] && more[1..] == fields[1..] + [last];
      assert Frames(more) == Frame(fields[0]) + (Frames(fields[1..]) + Frame(last));
    }
  }

  lemma NextFrame(fields: seq<Bytes>, i: nat, buffer: Bytes)
    requires i < |fields|
    ensures buffer + Frames(fields[..i + 1]) == buffer + Frames(fields[..i]) + Frame(fields[i])
  {
    assert fields[..i + 1] == fields[..i] + [fields[i]];
    FramesSnoc(fields[..i], fields[i]);
  }

  method AppendFields(buffer: Bytes, fields: seq<Bytes>) returns (result: Option<Bytes>)
    ensures result.Some? <==> forall i | 0 <= i < |fields| :: |fields[i]| < Range(4)
    ensures result.Some? ==> result.value == buffer + Frames(fields)
  {
    var context := buffer;
    for i := 0 to |fields|
      invariant forall k | 0 <= k < i :: |fields[k]| < Range(4)
      invariant context == buffer + Frames(fields[..i])
    {
      if |fields[i]| >= Range(4) {
        return None;
      }
      NextFrame(fields, i, buffer);
      context := context + Frame(fields[i]);
    }
    assert fields[..|fields|] == fields;
    result := Some(context);
  }

  /** The context is built in a buffer, field by field. */
  method BuildRecordingContext(f: Facts) returns (result: Result<Bytes>)
    ensures result == RecordingContext(f)
  {
    if !Acceptable(f) {
      return Err("invalid durable recording encryption context");
    }
    var context := AppendFields(RECORDING_HEADER, ContextFields(f));
    if context.None? {
      return Err("durable recording context is too large");
    }
    result := Ok(context.value + BigEndian(f.keyEpoch, 8));
  }

  /** media_blob_context, the context of ordinary processing media. */
  function MediaContext(user: Bytes, objectKey: Bytes): Bytes {
    "media\0" + user + "\0" + objectKey
  }

  lemma {:induction false} TextLength(n: nat, k: nat)
    requires k >= 1 && n < Pow10(k)
    ensures |Decimal.Text(n)| <= k
  {
    if n >= 10 { TextLength(n / 10, k - 1); }
  }

  function Pow10(k: nat): nat {
    if k == 0 then 1 else 10 * Pow10(k - 1)
  }

  lemma Pow10At19()
    ensures Pow10(19) == 10_000_000_000_000_000_000
  {
    assert Pow10(10) == 10_000_000_000;
    assert Pow10(19) == 10 * 10 * 10 * 10 * 10 * 10 * 10 * 10 * 10 * Pow10(10);
  }

  /** The too-large refusal is never taken. */
  lemma AcceptableHasContext(f: Facts)
    requires Acceptable(f)
    ensures RecordingContext(f).Ok?
  {
    Pow10At19();
    TextLength(f.byteLength, 19);
    assert Range(4) == 0x1_0000_0000;
    forall i | 0 <= i < 10 ensures |ContextFields(f)[i]| < Range(4) {
    }
  }

  /** What the context remembers: everything, the hash up to letter case. */
  function Canonical(f: Facts): Facts {
    f.(sha256 := ToLower(f.sha256))
  }

  lemma HeaderCancels(x: Bytes, y: Bytes)
    requires RECORDING_HEADER + x == RECORDING_HEADER + y
    ensures x == y
  {
    assert x == (RECORDING_HEADER + x)[|RECORDING_HEADER|..];
    assert y == (RECORDING_HEADER + y)[|RECORDING_HEADER|..];
  }

  /** What follows the header. */
  function ContextBody(f: Facts): Bytes
    requires f.byteLength >= 0 && f.keyEpoch >= 0
  {
    Frames(ContextFields(f)) + BigEndian(f.keyEpoch, 8)
  }

  lemma ContextIs(f: Facts)
    requires Acceptable(f)
    ensures RecordingContext(f) == Ok(RECORDING_HEADER + ContextBody(f))
    ensures forall i | 0 <= i < 10 :: |ContextFields(f)[i]| < Range(4)
  {
    AcceptableHasContext(f);
    var fields, tail := Frames(ContextFields(f)), BigEndian(f.keyEpoch, 8);
    assert RECORDING_HEADER + fields + tail == RECORDING_HEADER + (fields + tail);
  }

  lemma BodiesDetermineFacts(f: Facts, g: Facts)
    requires 0 <= f.byteLength && 0 <= g.byteLength && 0 <= f.keyEpoch < Range(8) && 0 <= g.keyEpoch < Range(8)
    requires forall i | 0 <= i < 10 :: |ContextFields(f)[i]| < Range(4) && |ContextFields(g)[i]| < Range(4)
    requires ContextBody(f) == ContextBody(g)
    ensures Canonical(f) == Canonical(g)
  {
    FramesSplit(ContextFields(f), BigEndian(f.keyEpoch, 8), ContextFields(g), BigEndian(g.keyEpoch, 8));
    BigEndianInjective(f.keyEpoch, g.keyEpoch, 8);
    FieldsDetermineFacts(f, g);
  }

  /** Two accepted fact tuples share a context exactly when they agree. */
  lemma RecordingContextExact(f: Facts, g: Facts)
    requires Acceptable(f) && Acceptable(g)
    ensures RecordingContext(f).Ok? && RecordingContext(g).Ok?
    ensures RecordingContext(f) == RecordingContext(g) <==> Canonical(f) == Canonical(g)
  {
    ContextIs(f);
    ContextIs(g);
    if RecordingContext(f) == RecordingContext(g) {
      HeaderCancels(ContextBody(f), ContextBody(g));
      assert Range(8) == 0x1_0000_0000_0000_0000;
      BodiesDetermineFacts(f, g);
    } else {
      CanonicalDeterminesBody(f, g);
    }
  }

  lemma CanonicalDeterminesBody(f: Facts, g: Facts)
    requires Acceptable(f) && Acceptable(g)
    ensures Canonical(f) == Canonical(g) ==> ContextBody(f) == ContextBody(g)
  {
    if Canonical(f) == Canonical(g) {
      assert ContextFields(f) == ContextFields(g);
    }
  }

  lemma FieldsDetermineFacts(f: Facts, g: Facts)
    requires f.byteLength >= 0 && g.byteLength >= 0 && f.keyEpoch == g.keyEpoch
    requires ContextFields(f) == ContextFields(g)
    ensures Canonical(f) == Canonical(g)
  {
    var fs, gs := ContextFields(f), ContextFields(g);
    assert fs[0] == gs[0] && fs[1] == gs[1] && fs[2] == gs[2] && fs[3] == gs[3] && fs[4] == gs[4];
    assert fs[5] == gs[5] && fs[6] == gs[6] && fs[7] == gs[7] && fs[8] == gs[8] && fs[9] == gs[9];
    Decimal.TextInjective(f.byteLength, g.byteLength);
  }

  /** A recording context is never the context of ordinary media. */
  lemma ContextsDisjoint(f: Facts, user: Bytes, objectKey: Bytes)
    requires Acceptable(f)
    ensures RecordingContext(f) != Ok(MediaContext(user, objectKey))
  {
    AcceptableHasContext(f);
    assert RecordingContext(f).value[0] == 'k';
    assert MediaContext(user, objectKey)[0] == 'm';
  }

  /** Ordinary contexts of valid accounts tell account and object apart. */
  lemma MediaContextExact(user: Bytes, key: Bytes, user': Bytes, key': Bytes)
    requires ValidId(user) && ValidId(user')
    ensures MediaContext(user, key) == MediaContext(user', key') <==> user == user' && key == key'
  {
    if MediaContext(user, key) == MediaContext(user', key') {
      var a, b := MediaContext(user, key), MediaContext(user', key');
      assert a == "media\0" + (user + ['\0'] + key) && b == "media\0" + (user' + ['\0'] + key');
      assert user + ['\0'] + key == a[6..] && user' + ['\0'] + key' == b[6..];
      IdsLackSeparators(user);
      IdsLackSeparators(user');
      SplitAt('\0', user, key, user', key');
      SplitAt('\0', user', key', user, key);
    }
  }
}
