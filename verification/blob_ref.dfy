/** `blobRefRgx` and `dirBlobRef`: recognising the blob ref the upload tool
    prints for the root of an uploaded directory. */
module BlobRef {
  import opened Strings
  import opened Results

  /** A character of the class `[a-f0-9]`. */
  predicate IsHexDigit(c: char) { '0' <= c <= '9' || 'a' <= c <= 'f' }

  predicate AllHex(s: string) {
    forall i :: 0 <= i < |s| ==> IsHexDigit(s[i])
  }

  /** Length of the run of `'1'` characters at the front of `t`. */
  function OnesSpan(t: string): (n: nat)
    ensures n <= |t|
    ensures forall i :: 0 <= i < n ==> t[i] == '1'
    ensures n < |t| ==> t[n] != '1'
  {
    if t == [] || t[0] != '1' then 0 else 1 + OnesSpan(t[1..])
  }

  /** The pattern `^sha1+-[a-f0-9]+$`, hand-coded: `"sha"`, then the run of
      `'1'`s (at least one), then `'-'`, then at least one lower-case hex
      digit up to the very end. The run is maximal because `'-'` is not a
      `'1'`, so reading it greedily loses no match. */
  predicate Matches(s: string) {
    && |s| >= 3
    && s[..3] == "sha"
    && var n := OnesSpan(s[3..]);
    && n >= 1
    && 3 + n + 1 < |s|
    && s[3 + n] == '-'
    && AllHex(s[3 + n + 1..])
  }

  /** `n` copies of `'1'`. */
  function Ones(n: nat): (r: string)
    ensures |r| == n
    ensures forall i :: 0 <= i < n ==> r[i] == '1'
  {
    if n == 0 then [] else "1" + Ones(n - 1)
  }

  /** Reference definition of the pattern's language, by generation:
      `"sha"`, one or more `'1'`, `'-'`, one or more hex digits. */
  ghost predicate Shape(s: string) {
    exists n: nat, hex: string :: n >= 1 && hex != [] && AllHex(hex) && s == "sha" + Ones(n) + "-" + hex
  }

  /** The hand-coded matcher accepts exactly the pattern's language. */
  lemma MatchesIffShape(s: string)
    ensures Matches(s) <==> Shape(s)
  {
    if Matches(s) {
      MatchIsShape(s);
    }
    if Shape(s) {
      var n: nat, hex :| n >= 1 && hex != [] && AllHex(hex) && s == "sha" + Ones(n) + "-" + hex;
      ShapeMatches(n, hex);
    }
  }

  lemma MatchIsShape(s: string)
    requires Matches(s)
    ensures Shape(s)
  {
    var n := OnesSpan(s[3..]);
    var hex := s[3 + n + 1..];
    assert s[3..3 + n] == Ones(n);
    assert s == s[..3] + s[3..3 + n] + [s[3 + n]] + hex;
    assert hex != [] && AllHex(hex);
  }

  lemma ShapeMatches(n: nat, hex: string)
    requires n >= 1 && hex != [] && AllHex(hex)
    ensures Matches("sha" + Ones(n) + "-" + hex)
  {
    var s := "sha" + Ones(n) + "-" + hex;
    var t := s[3..];
    assert t == Ones(n) + "-" + hex;
    assert t[n] == '-';
    assert forall i :: 0 <= i < n ==> t[i] == '1';
    assert OnesSpan(t) == n;
    assert s[3 + n + 1..] == hex;
  }

  /** A string of the pattern's shape ends in a hex digit, so never in a
      newline. */
  lemma ShapeHasNoNewline(b: string)
    requires Shape(b)
    ensures '\n' !in b
  {
    var n: nat, hex :| n >= 1 && hex != [] && AllHex(hex) && b == "sha" + Ones(n) + "-" + hex;
    forall i | 0 <= i < |b|
      ensures b[i] != '\n'
    {
      if i >= 3 + n + 1 {
        assert b[i] == hex[i - (3 + n + 1)];
      }
    }
  }

  /** `dirBlobRef`: strip one trailing newline, then accept the rest only if
      it has the pattern's shape, returning it unchanged. */
  function DirBlobRef(output: string): (r: Result<string>)
    ensures r.Ok? ==> Shape(r.value) && '\n' !in r.value
    ensures r.Ok? ==> output == r.value || output == r.value + "\n"
    ensures r.Err? ==> r.error == MalformedBlobRef(TrimSuffix(output, "\n"))
    ensures r.Err? ==> !Shape(TrimSuffix(output, "\n"))
  {
    var br := TrimSuffix(output, "\n");
    MatchesIffShape(br);
    if Matches(br) then
      ShapeHasNoNewline(br);
      Ok(br)
    else Err(MalformedBlobRef(br))
  }

  /** Every blob ref is accepted, bare or followed by one newline, and comes
      back unchanged: together with the contract of `DirBlobRef` this pins
      down exactly which outputs are accepted. */
  lemma DirBlobRefAccepts(b: string)
    requires Shape(b)
    ensures DirBlobRef(b) == Ok(b)
    ensures DirBlobRef(b + "\n") == Ok(b)
  {
    ShapeHasNoNewline(b);
    MatchesIffShape(b);
    if |b| >= 1 {
      assert b[|b| - 1] in b;
    }
    assert !HasSuffix(b, "\n");
    assert (b + "\n")[..|b|] == b;
  }

  /** The quirks of the pattern as written: several `'1'`s are accepted,
      `sha224`-style and upper-case refs are not, and an empty hex part is
      not. */
  lemma PatternExamples()
    ensures Matches("sha111-ab")
    ensures !Matches("sha1-")
    ensures !Matches("sha224-ab")
    ensures !Matches("sha1-AB")
    ensures Matches("sha1-0f")
  {
    SeveralOnesAccepted();
    EmptyHexRejected();
    OtherDigestRejected();
    UpperHexRejected();
    PlainRefAccepted();
  }

  lemma SeveralOnesAccepted() ensures Matches("sha111-ab") {
    ShapeMatches(3, "ab");
    assert "sha" + Ones(3) + "-" + "ab" == "sha111-ab";
  }
  lemma EmptyHexRejected() ensures !Matches("sha1-") {
    assert OnesSpan("1-") == 1;
  }
  lemma OtherDigestRejected() ensures !Matches("sha224-ab") {
    assert OnesSpan("224-ab") == 0;
  }
  lemma UpperHexRejected() ensures !Matches("sha1-AB") {
    assert OnesSpan("1-AB") == 1;
    assert !IsHexDigit("sha1-AB"[5]);
  }
  lemma PlainRefAccepted() ensures Matches("sha1-0f") {
    assert OnesSpan("1-0f") == 1;
  }

  /** Only one newline is stripped: an output ending in two newlines is
      rejected even though it starts with a valid ref. */
  lemma TwoNewlinesRejected(b: string)
    requires Shape(b)
    ensures DirBlobRef(b + "\n\n").Err?
  {
    var out := b + "\n\n";
    assert HasSuffix(out, "\n");
    var br := TrimSuffix(out, "\n");
    assert br == b + "\n";
    assert br[|br| - 1] == '\n';
    assert '\n' in br;
    if Shape(br) {
      ShapeHasNoNewline(br);
    }
  }
}
