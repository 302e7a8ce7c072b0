/** Object keys and storage URIs: how they are written, and how they read back. */
module Keys {
  import opened Wrappers
  import opened Catalog

  // ---------- numbers in keys ----------

  const DIGITS := "0123456789"

  function Decimal(n: nat): (s: string)
    ensures s != ""
  {
    if n < 10 then [DIGITS[n]] else Decimal(n / 10) + [DIGITS[n % 10]]
  }

  /** A number with leading zeros up to a minimum width. */
  function Padded(n: nat, width: nat): string {
    Pad(Decimal(n), width)
  }

  function Pad(s: string, width: nat): string
    decreases width - |s|
  {
    if |s| >= width then s else Pad("0" + s, width)
  }

  function DigitValue(c: char): nat {
    if '0' <= c <= '9' then (c - '0') as nat else 0
  }

  function ValueOf(s: string): nat {
    if s == "" then 0 else ValueOf(s[..|s| - 1]) * 10 + DigitValue(s[|s| - 1])
  }

  lemma DigitReadsBack(d: nat)
    requires d < 10
    ensures DigitValue(DIGITS[d]) == d && DIGITS[d] != '/'
  {
  }

  lemma {:induction false} DecimalReadsBack(n: nat)
    ensures ValueOf(Decimal(n)) == n && '/' !in Decimal(n)
  {
    if n < 10 {
      DigitReadsBack(n);
      assert Decimal(n)[..0] == "";
    } else {
      DecimalReadsBack(n / 10);
      DigitReadsBack(n % 10);
      assert Decimal(n)[..|Decimal(n)| - 1] == Decimal(n / 10);
    }
  }

  lemma {:induction false} LeadingZero(s: string)
    ensures ValueOf("0" + s) == ValueOf(s)
  {
    if s == "" {
      assert ("0" + s)[..0] == "";
    } else {
      LeadingZero(s[..|s| - 1]);
      assert ("0" + s)[..|s|] == "0" + s[..|s| - 1];
    }
  }

  lemma {:induction false} PadReadsBack(s: string, width: nat)
    requires '/' !in s
    ensures ValueOf(Pad(s, width)) == ValueOf(s) && '/' !in Pad(s, width)
    decreases width - |s|
  {
    if |s| < width {
      LeadingZero(s);
      PadReadsBack("0" + s, width);
    }
  }

  lemma PaddedReadsBack(n: nat, width: nat)
    ensures ValueOf(Padded(n, width)) == n && '/' !in Padded(n, width)
  {
    DecimalReadsBack(n);
    PadReadsBack(Decimal(n), width);
  }

  // ---------- object keys ----------

  datatype KeyError = UnsupportedDataset | MonthRequired

  function ServiceName(s: Service): string {
    if s == Yellow then "yellow" else "green"
  }

  function MonthlyTail(year: nat, month: nat, checksum: Digest): string {
    Padded(year, 4) + "/" + (Padded(month, 2) + "/" + (checksum + ".parquet"))
  }

  /** The checksum-addressed key of one source version. */
  function S3Key(m: Metadata): Result<string, KeyError> {
    if m.dataset == TaxiZoneLookup then Ok("landing/reference/taxi_zones/" + (m.checksum + ".csv"))
    else if m.service.None? then Err(UnsupportedDataset)
    else if m.year.None? || m.month.None? then Err(MonthRequired)
    else Ok("landing/" + ServiceName(m.service.value) + "/" + MonthlyTail(m.year.value, m.month.value, m.checksum))
  }

  /** A text splits in one way at its first slash. */
  lemma FirstSlash(a: string, b: string, c: string, d: string)
    requires a + "/" + b == c + "/" + d && '/' !in a && '/' !in c
    ensures a == c && b == d
  {
    var s := a + "/" + b;
    assert s[|a|] == '/' && s[|c|] == '/';
    assert forall i :: 0 <= i < |a| ==> s[i] == a[i] && a[i] in a;
    assert forall i :: 0 <= i < |c| ==> s[i] == c[i] && c[i] in c;
    assert |a| == |c|;
    assert a == s[..|a|] && c == s[..|c|];
    assert b == s[|a| + 1..] && d == s[|c| + 1..];
  }

  lemma SameSuffix(a: string, b: string, suffix: string)
    requires a + suffix == b + suffix
    ensures a == b
  {
    assert |a + suffix| == |b + suffix|;
    assert a == (a + suffix)[..|a|] && b == (b + suffix)[..|b|];
  }

  lemma TailReadsBack(y: nat, m: nat, c: Digest, y': nat, m': nat, c': Digest)
    requires MonthlyTail(y, m, c) == MonthlyTail(y', m', c')
    ensures y == y' && m == m' && c == c'
  {
    PaddedReadsBack(y, 4);
    PaddedReadsBack(y', 4);
    PaddedReadsBack(m, 2);
    PaddedReadsBack(m', 2);
    FirstSlash(Padded(y, 4), Padded(m, 2) + "/" + (c + ".parquet"), Padded(y', 4), Padded(m', 2) + "/" + (c' + ".parquet"));
    FirstSlash(Padded(m, 2), c + ".parquet", Padded(m', 2), c' + ".parquet");
    SameSuffix(c, c', ".parquet");
  }

  lemma ServiceReadsBack(s: Service, t: Service, a: string, b: string)
    requires "landing/" + ServiceName(s) + "/" + a == "landing/" + ServiceName(t) + "/" + b
    ensures s == t && a == b
  {
    var x, y := "landing/" + ServiceName(s) + "/", "landing/" + ServiceName(t) + "/";
    assert (x + a)[8] == ServiceName(s)[0] && (y + b)[8] == ServiceName(t)[0];
    assert a == (x + a)[|x|..] && b == (y + b)[|y|..];
  }

  lemma ServiceKeyDiffers(s: Service, a: string, b: string)
    ensures "landing/" + ServiceName(s) + "/" + a != "landing/reference/taxi_zones/" + b
  {
    var x, y := "landing/" + ServiceName(s) + "/" + a, "landing/reference/taxi_zones/" + b;
    assert x[8] == ServiceName(s)[0] && y[8] == 'r';
  }

  /** The key determines partition and checksum: no two source versions share a key. */
  lemma KeyIsInjective(m: Metadata, n: Metadata)
    requires Identified(m) && Identified(n) && S3Key(m).Ok? && S3Key(m) == S3Key(n)
    requires !m.dataset.Unsupported? && !n.dataset.Unsupported?
    ensures m.partition == n.partition && m.checksum == n.checksum
  {
    var k, l := S3Key(m).value, S3Key(n).value;
    if m.dataset == TaxiZoneLookup && n.dataset == TaxiZoneLookup {
      var prefix := "landing/reference/taxi_zones/";
      assert m.checksum + ".csv" == k[|prefix|..] && n.checksum + ".csv" == l[|prefix|..];
      SameSuffix(m.checksum, n.checksum, ".csv");
    } else if m.dataset == TaxiZoneLookup {
      ServiceKeyDiffers(n.service.value, MonthlyTail(n.year.value, n.month.value, n.checksum), m.checksum + ".csv");
    } else if n.dataset == TaxiZoneLookup {
      ServiceKeyDiffers(m.service.value, MonthlyTail(m.year.value, m.month.value, m.checksum), n.checksum + ".csv");
    } else {
      var a := MonthlyTail(m.year.value, m.month.value, m.checksum);
      var b := MonthlyTail(n.year.value, n.month.value, n.checksum);
      ServiceReadsBack(m.service.value, n.service.value, a, b);
      TailReadsBack(m.year.value, m.month.value, m.checksum, n.year.value, n.month.value, n.checksum);
    }
  }

  // ---------- what a key says ----------

  predicate AllDigits(s: string) {
    forall c :: c in s ==> '0' <= c <= '9'
  }

  lemma {:induction false} DecimalLength(n: nat, width: nat)
    requires width > 0 && n < Power10(width)
    ensures |Decimal(n)| <= width
  {
    if n >= 10 {
      DecimalLength(n / 10, width - 1);
    }
  }

  function Power10(k: nat): nat {
    if k == 0 then 1 else 10 * Power10(k - 1)
  }

  lemma {:induction false} PadLength(s: string, width: nat)
    ensures |Pad(s, width)| == if |s| >= width then |s| else width
    decreases width - |s|
  {
    if |s| < width {
      PadLength("0" + s, width);
    }
  }

  lemma {:induction false} DecimalChars(n: nat)
    ensures AllDigits(Decimal(n))
  {
    if n >= 10 {
      DecimalChars(n / 10);
    }
  }

  lemma {:induction false} PadChars(s: string, width: nat)
    requires AllDigits(s)
    ensures AllDigits(Pad(s, width))
    decreases width - |s|
  {
    if |s| < width {
      PadChars("0" + s, width);
    }
  }

  /** The text is this number in decimal, in exactly `width` digits if they suffice. */
  ghost predicate Writes(text: string, n: nat, width: nat) {
    AllDigits(text) && ValueOf(text) == n && |text| >= width && (n < Power10(width) ==> |text| == width)
  }

  lemma PaddedWrites(n: nat, width: nat)
    requires width > 0
    ensures Writes(Padded(n, width), n, width)
  {
    PaddedReadsBack(n, width);
    DecimalChars(n);
    PadChars(Decimal(n), width);
    PadLength(Decimal(n), width);
    if n < Power10(width) {
      DecimalLength(n, width);
    }
  }

  /** The key of a monthly version names service, year and month, the year in four digits and the month in
      two, and the content by its checksum. */
  lemma MonthlyKeySays(m: Metadata) returns (year: string, month: string)
    requires m.dataset != TaxiZoneLookup && S3Key(m).Ok?
    ensures Writes(year, m.year.value, 4) && Writes(month, m.month.value, 2)
    ensures S3Key(m).value == (if m.service == Some(Yellow) then "landing/yellow/" else "landing/green/")
                              + (year + ("/" + (month + ("/" + (m.checksum + ".parquet")))))
  {
    year, month := Padded(m.year.value, 4), Padded(m.month.value, 2);
    PaddedWrites(m.year.value, 4);
    PaddedWrites(m.month.value, 2);
    assert MonthlyTail(m.year.value, m.month.value, m.checksum)
        == year + ("/" + (month + ("/" + (m.checksum + ".parquet"))));
  }

  // ---------- storage URIs ----------

  function Find(s: string, stops: set<char>): (i: nat)
    ensures i <= |s| && (forall j :: 0 <= j < i ==> s[j] !in stops) && (i < |s| ==> s[i] in stops)
  {
    if s == "" || s[0] in stops then 0 else 1 + Find(s[1..], stops)
  }

  function LStrip(s: string): (r: string)
    ensures |r| <= |s| && (r == s <==> s == "" || s[0] != '/')
  {
    if s != "" && s[0] == '/' then LStrip(s[1..]) else s
  }

  predicate SchemeChar(c: char) {
    'a' <= c <= 'z' || 'A' <= c <= 'Z' || '0' <= c <= '9' || c == '+' || c == '-' || c == '.'
  }

  function Lower(s: string): string {
    seq(|s|, i requires 0 <= i < |s| => if 'A' <= s[i] <= 'Z' then s[i] + ('a' - 'A') else s[i])
  }

  datatype Url = Url(scheme: string, netloc: string, path: string)

  /** The scheme, in lower case, and what follows its colon; no scheme when the text has none. */
  function SplitScheme(uri: string): (string, string) {
    var i := Find(uri, {':'});
    if 0 < i < |uri| && (forall c | c in uri[..i] :: SchemeChar(c)) && !('0' <= uri[0] <= '9') && uri[0] !in "+-." then
      (Lower(uri[..i]), uri[i + 1..])
    else
      ("", uri)
  }

  /** The authority after a double slash, and what follows it. */
  function SplitNetloc(rest: string): (string, string) {
    if |rest| >= 2 && rest[0] == '/' && rest[1] == '/' then
      var j := Find(rest[2..], {'/', '?', '#'});
      (rest[2..][..j], rest[2..][j..])
    else
      ("", rest)
  }

  /** The generic URI split: scheme, authority, and the path up to a query or fragment. */
  function UrlSplit(uri: string): Url {
    var (scheme, rest) := SplitScheme(uri);
    var (netloc, tail) := SplitNetloc(rest);
    Url(scheme, netloc, tail[..Find(tail, {'?', '#'})])
  }

  /** The characters that the URL parser removes wherever they stand. */
  predicate Removed(c: char) {
    c == '\t' || c == '\r' || c == '\n'
  }

  predicate Plain(s: string) {
    '\t' !in s && '\r' !in s && '\n' !in s
  }

  function Cleaned(s: string): string {
    if s == "" then "" else Cleaned(s[..|s| - 1]) + if Removed(s[|s| - 1]) then "" else [s[|s| - 1]]
  }

  /** The text without leading control characters and spaces, which the parser drops first. */
  function StripControl(s: string): string {
    if s != "" && s[0] <= ' ' then StripControl(s[1..]) else s
  }

  function ParseS3Uri(uri: string): Option<(string, string)> {
    ParsedParts(UrlSplit(Cleaned(StripControl(uri))))
  }

  function ParsedParts(url: Url): Option<(string, string)> {
    if url.scheme != "s3" || url.netloc == "" || LStrip(url.path) == "" then None
    else Some((url.netloc, LStrip(url.path)))
  }

  function S3Uri(bucket: string, key: string): string {
    "s3://" + bucket + "/" + key
  }

  lemma FindExactly(s: string, stops: set<char>, i: nat)
    requires i <= |s| && (forall j :: 0 <= j < i ==> s[j] !in stops) && (i < |s| ==> s[i] in stops)
    ensures Find(s, stops) == i
  {
  }

  lemma SchemeOfS3(rest: string)
    ensures SplitScheme("s3:" + rest) == ("s3", rest)
  {
    var uri := "s3:" + rest;
    assert uri[0] == 's' && uri[1] == '3' && uri[2] == ':';
    FindExactly(uri, {':'}, 2);
    assert uri[..2] == "s3" && Lower("s3") == "s3" && uri[3..] == rest;
  }

  lemma NetlocOf(bucket: string, tail: string)
    requires Undelimited(bucket)
    ensures SplitNetloc("//" + (bucket + ("/" + tail))) == (bucket, "/" + tail)
  {
    var rest := "//" + (bucket + ("/" + tail));
    var body := bucket + ("/" + tail);
    assert rest[2..] == body;
    assert forall j :: 0 <= j < |bucket| ==> body[j] == bucket[j] && bucket[j] in bucket;
    FindExactly(body, {'/', '?', '#'}, |bucket|);
    assert body[..|bucket|] == bucket && body[|bucket|..] == "/" + tail;
  }

  lemma PathOf(key: string)
    ensures Find("/" + key, {'?', '#'}) == 1 + Find(key, {'?', '#'})
    ensures ("/" + key)[..1 + Find(key, {'?', '#'})] == "/" + key[..Find(key, {'?', '#'})]
  {
    FindExactly("/" + key, {'?', '#'}, 1 + Find(key, {'?', '#'}));
  }

  lemma S3UriParts(bucket: string, key: string)
    ensures S3Uri(bucket, key) == "s3:" + ("//" + (bucket + ("/" + key)))
  {
  }

  lemma SplitStorageUri(bucket: string, key: string)
    requires Undelimited(bucket)
    ensures UrlSplit(S3Uri(bucket, key)) == Url("s3", bucket, "/" + key[..Find(key, {'?', '#'})])
  {
    S3UriParts(bucket, key);
    SchemeOfS3("//" + (bucket + ("/" + key)));
    NetlocOf(bucket, key);
    PathOf(key);
  }

  lemma {:induction false} CleanedAppend(a: string, b: string)
    ensures Cleaned(a + b) == Cleaned(a) + Cleaned(b)
  {
    if b == "" {
      assert a + b == a;
    } else {
      var n := |b| - 1;
      CleanedAppend(a, b[..n]);
      CleanedSnoc(a + b[..n], b[n]);
      CleanedSnoc(b[..n], b[n]);
      assert b == b[..n] + [b[n]] && a + b == a + b[..n] + [b[n]];
    }
  }

  lemma CleanedSnoc(s: string, c: char)
    ensures Cleaned(s + [c]) == Cleaned(s) + if Removed(c) then "" else [c]
  {
    assert (s + [c])[..|s|] == s;
  }

  lemma {:induction false} CleanedIsPlain(s: string)
    ensures |Cleaned(s)| <= |s| && Plain(Cleaned(s))
  {
    if s != "" {
      CleanedIsPlain(s[..|s| - 1]);
    }
  }

  /** Cleaning changes nothing exactly when there is nothing to remove. */
  lemma {:induction false} CleanedIs(s: string)
    ensures Cleaned(s) == s <==> Plain(s)
  {
    if s != "" {
      var n := |s| - 1;
      CleanedIs(s[..n]);
      CleanedIsPlain(s[..n]);
      assert s == s[..n] + [s[n]];
    }
  }

  lemma CleanedUri(bucket: string, key: string)
    ensures Cleaned(StripControl(S3Uri(bucket, key))) == S3Uri(Cleaned(bucket), Cleaned(key))
  {
    assert S3Uri(bucket, key)[0] == 's';
    assert StripControl(S3Uri(bucket, key)) == S3Uri(bucket, key);
    CleanedAround("s3://", bucket, "/", key);
  }

  lemma CleanedAround(a: string, b: string, c: string, d: string)
    requires Plain(a) && Plain(c)
    ensures Cleaned(a + b + c + d) == a + Cleaned(b) + c + Cleaned(d)
  {
    CleanedAppend(a + b + c, d);
    CleanedAppend(a + b, c);
    CleanedAppend(a, b);
    CleanedIs(a);
    CleanedIs(c);
  }

  predicate Undelimited(s: string) {
    forall c :: c in s ==> c !in {'/', '?', '#'}
  }

  /** Nothing in the text ends an authority or is removed from it. */
  predicate BucketSafe(s: string) {
    Plain(s) && Undelimited(s)
  }

  /** Nothing in the text starts a query or a fragment or is removed. */
  predicate UriSafe(s: string) {
    '?' !in s && '#' !in s && Plain(s)
  }

  /** A bucket that holds a delimiter is cut short. */
  lemma CutNetloc(bucket: string, key: string)
    requires !Undelimited(bucket)
    ensures |UrlSplit(S3Uri(bucket, key)).netloc| < |bucket|
  {
    var n := Find(bucket, {'/', '?', '#'});
    var body := bucket + ("/" + key);
    S3UriParts(bucket, key);
    SchemeOfS3("//" + body);
    assert ("//" + body)[2..] == body;
    FindExactly(body, {'/', '?', '#'}, n);
  }

  /** The path of a storage URI reads back as the key exactly when that needs no stripping or cutting. */
  lemma PathReadsBack(key: string)
    ensures
      var path := LStrip("/" + key[..Find(key, {'?', '#'})]);
      path == key <==> (key == "" || key[0] != '/') && '?' !in key && '#' !in key
  {
    var n := Find(key, {'?', '#'});
    var path := key[..n];
    assert ("/" + path)[1..] == path;
    if '?' !in key && '#' !in key {
      assert n == |key| && path == key;
    }
    if n == |key| {
      assert path == key;
      assert forall c :: c in key ==> c !in {'?', '#'};
    }
  }

  /** A stored URI parses back to its bucket and key exactly when the bucket has no delimiter, the key is
      not empty, does not start with a slash and has no query or fragment character, and neither has a
      character that the parser removes. */
  lemma UriRoundTrip(bucket: string, key: string)
    requires bucket != ""
    ensures ParseS3Uri(S3Uri(bucket, key)) == Some((bucket, key))
       <==> BucketSafe(bucket) && key != "" && key[0] != '/' && UriSafe(key)
  {
    CleanedUri(bucket, key);
    CleanedIs(bucket);
    CleanedIs(key);
    CleanedIsPlain(bucket);
    CleanedIsPlain(key);
    CleanRoundTrip(bucket, key, Cleaned(bucket), Cleaned(key));
  }

  lemma CleanRoundTrip(bucket: string, key: string, b: string, k: string)
    requires bucket != "" && |b| <= |bucket| && |k| <= |key|
    ensures ParsedParts(UrlSplit(S3Uri(b, k))) == Some((bucket, key))
       <==> b == bucket && k == key && Undelimited(b) && k != "" && k[0] != '/' && '?' !in k && '#' !in k
  {
    if Undelimited(b) {
      SplitStorageUri(b, k);
      PathReadsBack(k);
    } else {
      CutNetloc(b, k);
    }
  }

  lemma PaddedChars(n: nat, width: nat)
    ensures UriSafe(Padded(n, width))
  {
    DecimalChars(n);
    PadChars(Decimal(n), width);
  }

  lemma UriSafeAppend(a: string, b: string)
    requires UriSafe(a) && UriSafe(b)
    ensures UriSafe(a + b)
  {
  }

  lemma TailUriSafe(year: nat, month: nat, checksum: Digest)
    requires UriSafe(checksum)
    ensures UriSafe(MonthlyTail(year, month, checksum))
  {
    PaddedChars(year, 4);
    PaddedChars(month, 2);
    UriSafeAppend(checksum, ".parquet");
    UriSafeAppend("/", checksum + ".parquet");
    UriSafeAppend(Padded(month, 2), "/" + (checksum + ".parquet"));
    assert Padded(month, 2) + "/" + (checksum + ".parquet") == Padded(month, 2) + ("/" + (checksum + ".parquet"));
  }

  lemma KeyFrom(prefix: string, tail: string)
    requires UriSafe(prefix) && UriSafe(tail) && prefix != "" && prefix[0] == 'l'
    ensures UriSafe(prefix + tail) && (prefix + tail)[0] == 'l'
  {
    UriSafeAppend(prefix, tail);
  }

  lemma ServicePrefix(s: Service)
    ensures
      var prefix := "landing/" + ServiceName(s) + "/";
      UriSafe(prefix) && prefix != "" && prefix[0] == 'l'
  {
    UriSafeAppend("landing/", ServiceName(s));
    UriSafeAppend("landing/" + ServiceName(s), "/");
    assert ("landing/" + ServiceName(s) + "/")[0] == "landing/"[0];
  }

  lemma KeyUriSafe(m: Metadata)
    requires S3Key(m).Ok? && UriSafe(m.checksum)
    ensures S3Key(m).value != "" && S3Key(m).value[0] == 'l' && UriSafe(S3Key(m).value)
  {
    if m.dataset == TaxiZoneLookup {
      UriSafeAppend(m.checksum, ".csv");
      KeyFrom("landing/reference/taxi_zones/", m.checksum + ".csv");
    } else {
      TailUriSafe(m.year.value, m.month.value, m.checksum);
      ServicePrefix(m.service.value);
      KeyFrom("landing/" + ServiceName(m.service.value) + "/", MonthlyTail(m.year.value, m.month.value, m.checksum));
    }
  }

  /** The URI of every stored source version parses back to its bucket and key. */
  lemma KeyParsesBack(m: Metadata, bucket: string)
    requires S3Key(m).Ok? && UriSafe(m.checksum) && bucket != "" && BucketSafe(bucket)
    ensures ParseS3Uri(S3Uri(bucket, S3Key(m).value)) == Some((bucket, S3Key(m).value))
  {
    KeyUriSafe(m);
    UriRoundTrip(bucket, S3Key(m).value);
  }
}
