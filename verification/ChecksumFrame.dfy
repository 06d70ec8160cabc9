/** The self-checking file frame of the persistent stores: a body and a checksum line, over any sixteen-character
    checksum. */
module ChecksumFrame {
  import opened SortedInts
  import opened ByteStrings
  import opened Fnv1a

  predicate LineEnd(c: char) { c == '\n' || c == '\r' }

  type Digest = Bytes -> Bytes

  ghost predicate SixteenDigits(digest: Digest) {
    forall s :: |digest(s)| == 16 && forall i :: 0 <= i < |digest(s)| ==> !LineEnd(digest(s)[i])
  }

  /** Equal except at one position. */
  ghost predicate DifferAt(s: Bytes, t: Bytes, i: nat) {
    i < |s| == |t| && s[i] != t[i] && t == s[i := t[i]]
  }

  ghost predicate DetectsSubstitution(digest: Digest) {
    forall s, t, i :: DifferAt(s, t, i) ==> digest(s) != digest(t)
  }

  const MARKER: Bytes := "\nchecksum="

  /** The file: the body, then a checksum line. */
  function Seal(digest: Digest, body: Bytes): (file: Bytes)
    requires SixteenDigits(digest)
    ensures |file| == |body| + 26
  {
    body + MARKER[1..] + digest(body) + ['\n']
  }

  predicate OccursAt(s: Bytes, i: nat) {
    i + |MARKER| <= |s| && s[i..i + |MARKER|] == MARKER
  }

  /** std::string::rfind of the marker, among the positions below n. */
  function LastMarker(s: Bytes, n: nat): (r: Option<nat>)
    ensures r.Some? ==> r.value < n && OccursAt(s, r.value) && forall j :: r.value < j < n ==> !OccursAt(s, j)
    ensures r.None? ==> forall j :: 0 <= j < n ==> !OccursAt(s, j)
  {
    if n == 0 then None else if OccursAt(s, n - 1) then Some(n - 1) else LastMarker(s, n - 1)
  }

  /** Drops line ends from the back. */
  function Trim(s: Bytes): (t: Bytes)
    ensures t <= s && (forall i :: |t| <= i < |s| ==> LineEnd(s[i])) && (t != [] ==> !LineEnd(t[|t| - 1]))
  {
    if s != [] && LineEnd(s[|s| - 1]) then Trim(s[..|s| - 1]) else s
  }

  /** The text after the first equals sign, without line ends at its back. */
  function ChecksumValue(line: Bytes): Bytes {
    var equals := IndexOf(line, '=');
    Trim(if equals == |line| then [] else line[equals + 1..])
  }

  /** What a store constructor does with the file: find the last checksum line, recompute, compare. */
  function Open(digest: Digest, file: Bytes): Outcome<Bytes> {
    var marker := LastMarker(file, |file|);
    if marker.None? then Error("truncated or missing checksum")
    else
      var body, value := file[..marker.value + 1], ChecksumValue(file[marker.value + 1..]);
      if digest(body) != value then Error("checksum mismatch: file is corrupt or was truncated") else Ok(body)
  }

  /** The marker's own equals sign is the first one of its line, and its line end is its first byte only. */
  lemma MarkerEquals(file: Bytes, i: nat)
    requires OccursAt(file, i)
    ensures file[i] == '\n' && file[i + 1] == 'c' && file[i + 2] == 'h'
    ensures ChecksumValue(file[i + 1..]) == Trim(file[i + 10..])
    ensures forall k :: i < k < i + 10 ==> !LineEnd(file[k])
  {
    var line := file[i + 1..];
    assert forall k :: 0 <= k < 10 ==> file[i + k] == file[i..i + 10][k] == MARKER[k];
    assert forall k :: 0 <= k < 9 ==> line[k] == file[i + (k + 1)] == MARKER[k + 1];
    assert line[8] == '=' && forall k :: 0 <= k < 8 ==> line[k] != '=';
    assert IndexOf(line, '=') == 8 && line[9..] == file[i + 10..];
    forall k | i < k < i + 10 ensures !LineEnd(file[k]) {
      assert file[k] == file[i + (k - i)] == MARKER[k - i];
    }
  }

  /** The shape of an accepted file: t line ends after a marker and sixteen digits that fit the body. */
  ghost predicate Shape(digest: Digest, file: Bytes, i: nat, t: nat) {
    && OccursAt(file, i) && |file| == i + 26 + t
    && file[i + 10..i + 26] == digest(file[..i + 1])
    && forall k :: i + 26 <= k < |file| ==> LineEnd(file[k])
  }

  lemma OpenHasShape(digest: Digest, file: Bytes) returns (i: nat, t: nat)
    requires SixteenDigits(digest)
    requires Open(digest, file).Ok?
    ensures Shape(digest, file, i, t) && Open(digest, file).value == file[..i + 1]
  {
    i := LastMarker(file, |file|).value;
    OpenTrim(digest, file, i);
    ShapeFromTrim(digest, file, i, file[i + 10..]);
    t := |file| - (i + 26);
  }

  lemma OpenTrim(digest: Digest, file: Bytes, i: nat)
    requires SixteenDigits(digest)
    requires Open(digest, file).Ok? && LastMarker(file, |file|) == Some(i)
    ensures Trim(file[i + 10..]) == digest(file[..i + 1]) && Open(digest, file).value == file[..i + 1]
  {
    MarkerEquals(file, i);
  }

  lemma ShapeFromTrim(digest: Digest, file: Bytes, i: nat, rest: Bytes)
    requires SixteenDigits(digest)
    requires OccursAt(file, i) && rest == file[i + 10..] && Trim(rest) == digest(file[..i + 1])
    ensures |file| >= i + 26 && Shape(digest, file, i, |file| - (i + 26))
  {
    assert rest[..16] == Trim(rest) && file[i + 10..i + 26] == rest[..16];
    forall k | i + 26 <= k < |file| ensures LineEnd(file[k]) {
      assert file[k] == rest[k - (i + 10)];
    }
  }

  lemma ShapeOpens(digest: Digest, file: Bytes, i: nat, t: nat)
    requires SixteenDigits(digest)
    requires Shape(digest, file, i, t) && forall j :: i < j < |file| ==> !OccursAt(file, j)
    ensures Open(digest, file) == Ok(file[..i + 1])
  {
    assert LastMarker(file, |file|) == Some(i);
    MarkerEquals(file, i);
    var rest, hex := file[i + 10..], digest(file[..i + 1]);
    assert rest[..16] == hex;
    assert rest[15] == rest[..16][15] == hex[15];
    forall k | 16 <= k < |rest| ensures LineEnd(rest[k]) { assert rest[k] == file[i + 10 + k]; }
    TrimTo(rest, 16);
  }

  lemma TrimTo(s: Bytes, n: nat)
    requires n <= |s| && (forall i :: n <= i < |s| ==> LineEnd(s[i])) && (n > 0 ==> !LineEnd(s[n - 1]))
    ensures Trim(s) == s[..n]
  {
    var t := Trim(s);
    assert t != [] ==> s[|t| - 1] == t[|t| - 1];
  }

  predicate EndsLine(body: Bytes) { body != [] && body[|body| - 1] == '\n' }

  /** The bytes of a sealed file, position by position. */
  lemma SealLayout(digest: Digest, body: Bytes)
    requires SixteenDigits(digest)
    ensures var file, n := Seal(digest, body), |body|;
            && file[..n] == body
            && file[n..n + 9] == MARKER[1..]
            && file[n + 9..n + 25] == digest(body)
            && file[n + 25] == '\n'
            && (forall k :: n <= k < n + 25 ==> !LineEnd(file[k]))
            && file[n] == 'c' && file[n + 1] == 'h'
  {
    var file, n := Seal(digest, body), |body|;
    assert file[n..n + 9] == MARKER[1..] && file[n + 9..n + 25] == digest(body);
    forall k | n <= k < n + 25 ensures !LineEnd(file[k]) {
      if k < n + 9 { assert file[k] == MARKER[1..][k - n]; } else { assert file[k] == digest(body)[k - n - 9]; }
    }
    assert file[n] == MARKER[1..][0] && file[n + 1] == MARKER[1..][1];
  }

  /** No checksum line starts after the body of a sealed file, whatever becomes of its last byte. */
  lemma NoLaterMarker(digest: Digest, body: Bytes, file: Bytes, j: nat)
    requires SixteenDigits(digest)
    requires |file| == |body| + 26 && file[..|body| + 25] == Seal(digest, body)[..|body| + 25]
    requires |body| <= j
    ensures !OccursAt(file, j)
  {
    SealLayout(digest, body);
    assert forall k :: |body| <= k < |body| + 25 ==> file[k] == file[..|body| + 25][k] == Seal(digest, body)[k];
    if OccursAt(file, j) { MarkerEquals(file, j); }
  }

  lemma SealHasShape(digest: Digest, body: Bytes)
    requires SixteenDigits(digest)
    requires EndsLine(body)
    ensures Shape(digest, Seal(digest, body), |body| - 1, 1) && Seal(digest, body)[..|body|] == body
  {
    SealLayout(digest, body);
    var file, n := Seal(digest, body), |body|;
    assert file[n - 1..n + 9] == [file[n - 1]] + file[n..n + 9] == ['\n'] + MARKER[1..] == MARKER;
  }

  /** A sealed body opens to itself exactly when it ends a line; in particular an empty body does not open. */
  lemma OpenSealed(digest: Digest, body: Bytes)
    requires SixteenDigits(digest)
    ensures Open(digest, Seal(digest, body)) == Ok(body) <==> EndsLine(body)
  {
    if EndsLine(body) { OpenSealedLine(digest, body); }
    OpenEndsLine(digest, Seal(digest, body));
  }

  lemma OpenSealedLine(digest: Digest, body: Bytes)
    requires SixteenDigits(digest)
    requires EndsLine(body)
    ensures Open(digest, Seal(digest, body)) == Ok(body)
  {
    var file := Seal(digest, body);
    SealHasShape(digest, body);
    forall j | |body| - 1 < j < |file| ensures !OccursAt(file, j) { NoLaterMarker(digest, body, file, j); }
    ShapeOpens(digest, file, |body| - 1, 1);
  }

  lemma OpenEndsLine(digest: Digest, file: Bytes)
    requires SixteenDigits(digest)
    ensures Open(digest, file).Ok? ==> EndsLine(Open(digest, file).value)
  {
    if Open(digest, file).Ok? {
      var i, t := OpenHasShape(digest, file);
      MarkerEquals(file, i);
    }
  }

  lemma SealedEmptyDoesNotOpen(digest: Digest)
    requires SixteenDigits(digest)
    ensures Open(digest, Seal(digest, [])).Error?
  {
    var file := Seal(digest, []);
    forall j | 0 <= j ensures !OccursAt(file, j) { NoLaterMarker(digest, [], file, j); }
  }

  ghost predicate NoMarker(body: Bytes) { forall j :: !OccursAt(body, j) }

  /** Truncation: the only proper prefix of a sealed file that opens is the one missing just the final newline, and it
      gives the same body. */
  lemma OpenPrefix(digest: Digest, body: Bytes, k: nat)
    requires SixteenDigits(digest)
    requires EndsLine(body) && NoMarker(body) && k < |Seal(digest, body)|
    ensures Open(digest, Seal(digest, body)[..k]).Ok? <==> k == |Seal(digest, body)| - 1
    ensures k == |Seal(digest, body)| - 1 ==> Open(digest, Seal(digest, body)[..k]) == Ok(body)
  {
    var file, n := Seal(digest, body), |body|;
    var cut := file[..k];
    SealHasShape(digest, body);
    SealLayout(digest, body);
    forall j | 0 <= j && j != n - 1 ensures !OccursAt(cut, j) { OnlyMarker(digest, body, k, j); }
    OpenNeedsLength(digest, cut, n - 1);
    if k == n + 25 {
      PrefixShape(digest, body);
      ShapeOpens(digest, cut, n - 1, 0);
    }
  }

  /** When the only marker is at one position, an accepted file has room for the digits after it. */
  lemma OpenNeedsLength(digest: Digest, file: Bytes, i: nat)
    requires SixteenDigits(digest)
    requires forall j :: 0 <= j && j != i ==> !OccursAt(file, j)
    ensures Open(digest, file).Ok? ==> |file| >= i + 26
  {
    if Open(digest, file).Ok? {
      var k, t := OpenHasShape(digest, file);
      assert k == i;
    }
  }

  /** Without its final newline a sealed file still has the accepted shape. */
  lemma PrefixShape(digest: Digest, body: Bytes)
    requires SixteenDigits(digest)
    requires EndsLine(body)
    ensures var cut := Seal(digest, body)[..|body| + 25];
            Shape(digest, cut, |body| - 1, 0) && cut[..|body|] == body
  {
    SealHasShape(digest, body);
    var file, n := Seal(digest, body), |body|;
    var cut := file[..n + 25];
    assert cut[n - 1..n + 9] == file[n - 1..n + 9] && cut[..n] == body && cut[n + 9..n + 25] == file[n + 9..n + 25];
  }

  /** In a prefix of a sealed file the only marker is the frame's own. */
  lemma OnlyMarker(digest: Digest, body: Bytes, k: nat, j: nat)
    requires SixteenDigits(digest)
    requires EndsLine(body) && NoMarker(body) && k < |Seal(digest, body)| && j != |body| - 1
    ensures !OccursAt(Seal(digest, body)[..k], j)
  {
    var file, n := Seal(digest, body), |body|;
    SealLayout(digest, body);
    assert file[n - 1] == file[..n][n - 1] == '\n';
    if OccursAt(file[..k], j) {
      assert file[j..j + 10] == file[..k][j..j + 10];
      assert OccursAt(file, j);
      MarkerEquals(file, j);
      MarkerInBody(body, file, j);
      if n <= j { NoLaterMarker(digest, body, file, j); }
    }
  }

  lemma MarkerInBody(body: Bytes, file: Bytes, j: nat)
    requires body <= file && OccursAt(file, j)
    ensures j + 10 <= |body| ==> OccursAt(body, j)
  {
    if j + 10 <= |body| { assert body[j..j + 10] == file[j..j + 10]; }
  }

  /** Corruption: replacing any one byte of a sealed file makes it unreadable, unless the final newline becomes a
      carriage return. */
  lemma OpenSubstituted(digest: Digest, body: Bytes, p: nat, c: Byte)
    requires SixteenDigits(digest) && DetectsSubstitution(digest)
    requires EndsLine(body) && p < |Seal(digest, body)| && c != Seal(digest, body)[p]
    ensures Open(digest, Seal(digest, body)[p := c]).Ok? <==> p == |Seal(digest, body)| - 1 && c == '\r'
    ensures p == |Seal(digest, body)| - 1 && c == '\r' ==> Open(digest, Seal(digest, body)[p := c]) == Ok(body)
  {
    var file, n := Seal(digest, body), |body|;
    var bad := file[p := c];
    SealHasShape(digest, body);
    SealLayout(digest, body);
    if p == n + 25 && c == '\r' {
      assert bad[n - 1..n + 9] == file[n - 1..n + 9] && bad[..n] == body && bad[n + 9..n + 25] == file[n + 9..n + 25];
      assert Shape(digest, bad, n - 1, 1);
      forall j | n - 1 < j < |bad| ensures !OccursAt(bad, j) { NoLaterMarker(digest, body, bad, j); }
      ShapeOpens(digest, bad, n - 1, 1);
    } else if Open(digest, bad).Ok? {
      var i, t := OpenHasShape(digest, bad);
      MarkerEquals(bad, i);
      ShapeOfBad(digest, body, p, c, i, t);
    }
  }

  lemma ShapeOfBad(digest: Digest, body: Bytes, p: nat, c: Byte, i: nat, t: nat)
    requires SixteenDigits(digest) && DetectsSubstitution(digest)
    requires EndsLine(body) && p < |Seal(digest, body)| && c != Seal(digest, body)[p]
    requires Shape(digest, Seal(digest, body)[p := c], i, t)
    ensures p == |Seal(digest, body)| - 1 && c == '\r'
  {
    var file, n := Seal(digest, body), |body|;
    var bad := file[p := c];
    BadEnds(digest, body, p, bad, i, t);
    assert LineEnd(bad[n + 25]);
    SealHasShape(digest, body);
    MarkerUnchanged(file, bad, n - 1);
    SealLayout(digest, body);
    assert p >= n ==> bad[..n] == file[..n];
    SliceEqual(bad, file, n + 9, n + 25, p);
    if p < n {
      assert bad[n + 9..n + 25] == file[n + 9..n + 25];
      BodyDiffers(digest, body, bad[..n], p, c);
    }
  }

  lemma BodyDiffers(digest: Digest, body: Bytes, other: Bytes, p: nat, c: Byte)
    requires DetectsSubstitution(digest) && p < |body| && c != body[p] && other == body[p := c]
    ensures digest(other) != digest(body)
  {
    assert DifferAt(body, other, p);
  }

  lemma BadEnds(digest: Digest, body: Bytes, p: nat, bad: Bytes, i: nat, t: nat)
    requires SixteenDigits(digest) && EndsLine(body)
    requires p < |Seal(digest, body)| && |bad| == |Seal(digest, body)|
    requires forall k :: 0 <= k < |bad| && k != p ==> bad[k] == Seal(digest, body)[k]
    requires Shape(digest, bad, i, t)
    ensures i == |body| - 1 && t == 1
  {
    SealLayout(digest, body);
    var file, n := Seal(digest, body), |body|;
    assert file[n - 1] == file[..n][n - 1] == '\n';
    MarkerEquals(bad, i);
    TrailingLineEnds(bad, i, t, n, p);
  }

  /** If a file has at most one line end among twenty-five positions before its last, its digits end just before it. */
  lemma TrailingLineEnds(bad: Bytes, i: nat, t: nat, n: nat, p: nat)
    requires |bad| == i + 26 + t == n + 26 && (forall k :: i + 26 <= k < |bad| ==> LineEnd(bad[k]))
    requires bad[i + 1] == 'c' && bad[i] == '\n'
    requires n > 0 && (p != n - 1 ==> bad[n - 1] == '\n') && (p == n ==> bad[n + 1] == 'h')
    requires forall k :: n <= k < n + 25 && k != p ==> !LineEnd(bad[k])
    ensures t == 1
  {
    assert LineEnd(bad[n + 24]) || t < 2;
    assert LineEnd(bad[n + 23]) || t < 3;
  }

  lemma MarkerUnchanged(s: Bytes, t: Bytes, i: nat)
    requires OccursAt(s, i) && OccursAt(t, i)
    ensures forall k :: i <= k < i + 10 ==> s[k] == t[k]
  {
    forall k | i <= k < i + 10 ensures s[k] == t[k] {
      assert s[k] == s[i..i + 10][k - i] && t[k] == t[i..i + 10][k - i];
    }
  }

  lemma SliceEqual(s: Bytes, t: Bytes, a: nat, b: nat, p: nat)
    requires a <= b <= |s| == |t| && (p >= a ==> s[a..b] == t[a..b])
    ensures a <= p < b ==> s[p] == t[p]
  {
    if a <= p < b { assert s[p] == s[a..b][p - a] && t[p] == t[a..b][p - a]; }
  }

  // ----- the frame with FNV-1a -----

  /** FNV-1a in hexadecimal is such a checksum: it tells any two bodies apart that differ in one byte. */
  lemma FnvIsDigest()
    ensures SixteenDigits(Fnv) && DetectsSubstitution(Fnv)
  {
    forall s, t, i | DifferAt(s, t, i) ensures Fnv(s) != Fnv(t) {
      HashDetectsSubstitution(s, i, t[i]);
      HashInRange(s);
      HashInRange(t);
      if Fnv(s) == Fnv(t) { HashToHexInjective(Hash(s), Hash(t)); }
    }
    forall s ensures |Fnv(s)| == 16 && forall i :: 0 <= i < |Fnv(s)| ==> !LineEnd(Fnv(s)[i]) { FnvDigits(s); }
  }

  lemma FnvDigits(s: Bytes)
    ensures |Fnv(s)| == 16 && forall i :: 0 <= i < |Fnv(s)| ==> !LineEnd(Fnv(s)[i])
  {
    assert Fnv(s) == Hex(Hash(s), 16);
  }
}
