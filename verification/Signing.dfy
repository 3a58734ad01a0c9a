/** The messages devices sign (backend/internal/device/signing.go, backend/internal/session/attestation.go)
    and what a signature over one of them therefore commits to. Each message is given a decoder; a
    message that decodes back to its fields cannot stand for any others. */
module Signing {
  import opened Common
  import C = CivilTime
  import Replay
  import Sessions

  datatype SigningInput = SigningInput(method': string, path: string, timestamp: int, nonce: string, body: seq<Byte>)

  /** SHA-256, as a parameter. */
  type Sha = seq<Byte> -> seq<Byte>

  const REQUEST_TAG := "NETRA-v1"
  const ATTEST_TAG := "NETRA-attest-v1"

  /* ----- the messages ----- */

  function Join(a: string, b: string): string {
    a + ['\n'] + b
  }

  function HexDigit(n: int): char
    requires 0 <= n < 16
  {
    if n < 10 then '0' + n as char else 'a' + (n - 10) as char
  }

  function Hex(bytes: seq<Byte>): string {
    if bytes == [] then ""
    else
      var last := bytes[|bytes| - 1];
      Hex(bytes[..|bytes| - 1]) + [HexDigit(last / 16), HexDigit(last % 16)]
  }

  /** `%d`. */
  function Decimal(n: int): string {
    if n < 0 then ['-'] + C.Pad(-n, 1) else C.Pad(n, 1)
  }

  function CanonicalString(in': SigningInput, sha: Sha): string {
    Join(Join(Join(Join(Join(REQUEST_TAG, ToUpper(in'.method')), in'.path), Decimal(in'.timestamp)), in'.nonce),
         Hex(sha(in'.body)))
  }

  function AttestationString(nonce: string, subject: string): string {
    Join(Join(ATTEST_TAG, nonce), subject)
  }

  /* ----- reading them back ----- */

  /** What comes before and after the first newline. */
  function CutFirst(s: string): Option<(string, string)> {
    if s == "" then None
    else if s[0] == '\n' then Some(("", s[1..]))
    else match CutFirst(s[1..])
      case None => None
      case Some((a, b)) => Some(([s[0]] + a, b))
  }

  /** What comes before and after the last newline. */
  function CutLast(s: string): Option<(string, string)> {
    if s == "" then None
    else
      var n := |s| - 1;
      if s[n] == '\n' then Some((s[..n], ""))
      else match CutLast(s[..n])
        case None => None
        case Some((a, b)) => Some((a, b + [s[n]]))
  }

  function DigitValue(c: char): int {
    if '0' <= c <= '9' then c as int - '0' as int else if 'a' <= c <= 'f' then c as int - 'a' as int + 10 else 0
  }

  function Unhex(s: string): seq<Byte> {
    if |s| < 2 then []
    else Unhex(s[..|s| - 2]) + [16 * DigitValue(s[|s| - 2]) + DigitValue(s[|s| - 1])]
  }

  function Integer(s: string): int {
    var negative := s != "" && s[0] == '-';
    var value: int := C.Value(if negative then s[1..] else s);
    if negative then -value else value
  }

  datatype Parts = Parts(method': string, path: string, timestamp: int, nonce: string, digest: seq<Byte>)

  /** Method and path, once the rest has been taken off the end. */
  function DecodeHead(s: string): Option<(string, string)> {
    match CutFirst(s)
    case None => None
    case Some((tag, rest)) => if tag == REQUEST_TAG then CutFirst(rest) else None
  }

  /** Digest, nonce and timestamp are the last three lines, the method the second; the path is
      everything between, newlines included. */
  function Decode(s: string): Option<Parts> {
    match CutLast(s)
    case None => None
    case Some((s1, digest)) =>
      match CutLast(s1)
      case None => None
      case Some((s2, nonce)) =>
        match CutLast(s2)
        case None => None
        case Some((s3, timestamp)) =>
          match DecodeHead(s3)
          case None => None
          case Some((method', path)) => Some(Parts(method', path, Integer(timestamp), nonce, Unhex(digest)))
  }

  function DecodeAttestation(s: string): Option<(string, string)> {
    match CutFirst(s)
    case None => None
    case Some((tag, rest)) => if tag == ATTEST_TAG then CutFirst(rest) else None
  }

  /* ----- cutting undoes joining ----- */

  lemma {:induction false} CutFirstOfJoin(a: string, b: string)
    requires '\n' !in a
    ensures CutFirst(Join(a, b)) == Some((a, b))
  {
    var s := Join(a, b);
    if a == "" {
      assert s[0] == '\n' && s[1..] == b;
    } else {
      assert s[0] == a[0] && s[1..] == Join(a[1..], b);
      CutFirstOfJoin(a[1..], b);
      assert [a[0]] + a[1..] == a;
    }
  }

  lemma {:induction false} CutLastOfJoin(a: string, b: string)
    requires '\n' !in b
    ensures CutLast(Join(a, b)) == Some((a, b))
  {
    var s := Join(a, b);
    var n := |s| - 1;
    if b == "" {
      assert s[n] == '\n' && s[..n] == a;
    } else {
      var init := b[..|b| - 1];
      assert s[n] == b[|b| - 1] && s[..n] == Join(a, init);
      CutLastOfJoin(a, init);
      assert init + [b[|b| - 1]] == b;
    }
  }

  lemma {:induction false} FirstLineHasNoNewline(s: string)
    ensures CutFirst(s).Some? ==> '\n' !in CutFirst(s).value.0
  {
    if s != "" && s[0] != '\n' {
      FirstLineHasNoNewline(s[1..]);
    }
  }

  lemma JoinAssociates(a: string, b: string, c: string)
    ensures Join(Join(a, b), c) == Join(a, Join(b, c))
  {
  }

  /* ----- numbers and digests read back, and hold no newline ----- */

  lemma DigitRoundTrip(n: int)
    requires 0 <= n < 16
    ensures DigitValue(HexDigit(n)) == n && HexDigit(n) != '\n'
  {
  }

  lemma PairRoundTrip(b: Byte)
    ensures HexDigit(b / 16) != '\n' && HexDigit(b % 16) != '\n'
    ensures 16 * DigitValue(HexDigit(b / 16)) + DigitValue(HexDigit(b % 16)) == b
  {
    DigitRoundTrip(b / 16);
    DigitRoundTrip(b % 16);
  }

  lemma UnhexAppend(s: string, high: char, low: char)
    ensures Unhex(s + [high, low]) == Unhex(s) + [16 * DigitValue(high) + DigitValue(low)]
  {
    var t := s + [high, low];
    assert t[..|t| - 2] == s && t[|t| - 2] == high && t[|t| - 1] == low;
  }

  lemma {:induction false} HexRoundTrip(bytes: seq<Byte>)
    ensures Unhex(Hex(bytes)) == bytes && '\n' !in Hex(bytes)
  {
    if bytes != [] {
      var init, last := bytes[..|bytes| - 1], bytes[|bytes| - 1];
      HexRoundTrip(init);
      UnhexAppend(Hex(init), HexDigit(last / 16), HexDigit(last % 16));
      PairRoundTrip(last);
      assert init + [last] == bytes;
    }
  }

  /** Two lower-case hexadecimal characters per byte. */
  lemma {:induction false} HexShape(bytes: seq<Byte>)
    ensures |Hex(bytes)| == 2 * |bytes|
    ensures forall i :: 0 <= i < |Hex(bytes)| ==> Sessions.LowerHex(Hex(bytes)[i])
  {
    if bytes != [] {
      HexShape(bytes[..|bytes| - 1]);
    }
  }

  lemma {:induction false} NaturalHasDigitsOnly(n: nat, width: int)
    ensures |C.Pad(n, width)| >= 1 && C.IsDigits(C.Pad(n, width))
    decreases n + Max(width, 0)
  {
    if n >= 10 || width > 1 {
      NaturalHasDigitsOnly(n / 10, width - 1);
    }
  }

  lemma NaturalRoundTrip(n: nat)
    ensures C.Value(C.Pad(n, 1)) == n && '\n' !in C.Pad(n, 1) && |C.Pad(n, 1)| >= 1 && C.Pad(n, 1)[0] != '-'
  {
    C.ValueOfPad(n, 1);
    NaturalHasDigitsOnly(n, 1);
  }

  lemma DecimalRoundTrip(n: int)
    ensures Integer(Decimal(n)) == n && '\n' !in Decimal(n)
  {
    if n < 0 {
      NaturalRoundTrip(-n);
      assert Decimal(n)[1..] == C.Pad(-n, 1);
    } else {
      NaturalRoundTrip(n);
    }
  }

  lemma UpperKeepsNewlines(s: string)
    ensures '\n' in ToUpper(s) <==> '\n' in s
  {
    if '\n' in s {
      var i :| 0 <= i < |s| && s[i] == '\n';
      assert ToUpper(s)[i] == '\n';
    }
    if '\n' in ToUpper(s) {
      var i :| 0 <= i < |ToUpper(s)| && ToUpper(s)[i] == '\n';
      assert s[i] == '\n';
    }
  }

  /* ----- round trips ----- */

  function PartsOf(in': SigningInput, sha: Sha): Parts {
    Parts(ToUpper(in'.method'), in'.path, in'.timestamp, in'.nonce, sha(in'.body))
  }

  lemma HeadDecodes(method': string, path: string)
    ensures DecodeHead(Join(Join(REQUEST_TAG, method'), path)) == CutFirst(Join(method', path))
  {
    JoinAssociates(REQUEST_TAG, method', path);
    CutFirstOfJoin(REQUEST_TAG, Join(method', path));
  }

  lemma TailDecodes(head: string, timestamp: int, nonce: string, digest: seq<Byte>)
    requires '\n' !in nonce
    ensures Decode(Join(Join(Join(head, Decimal(timestamp)), nonce), Hex(digest)))
         == match DecodeHead(head)
            case None => None
            case Some((method', path)) => Some(Parts(method', path, timestamp, nonce, digest))
  {
    HexRoundTrip(digest);
    DecimalRoundTrip(timestamp);
    CutLastOfJoin(Join(Join(head, Decimal(timestamp)), nonce), Hex(digest));
    CutLastOfJoin(Join(head, Decimal(timestamp)), nonce);
    CutLastOfJoin(head, Decimal(timestamp));
  }

  /** Main theorem: for every validated nonce, and whatever the path contains, the signed request
      string decodes to its fields exactly if the method holds no newline. */
  lemma RequestDecodesIff(in': SigningInput, sha: Sha)
    requires Replay.ValidNonce(in'.nonce)
    ensures Decode(CanonicalString(in', sha)) == Some(PartsOf(in', sha)) <==> '\n' !in in'.method'
  {
    var m := ToUpper(in'.method');
    UpperKeepsNewlines(in'.method');
    HeadDecodes(m, in'.path);
    TailDecodes(Join(Join(REQUEST_TAG, m), in'.path), in'.timestamp, in'.nonce, sha(in'.body));
    if '\n' !in m {
      CutFirstOfJoin(m, in'.path);
    } else {
      FirstLineHasNoNewline(Join(m, in'.path));
    }
  }

  /** The lines of a string. */
  function Lines(s: string): seq<string>
    decreases |s|
  {
    match CutFirst(s)
    case None => [s]
    case Some((line, rest)) =>
      CutShortens(s);
      [line] + Lines(rest)
  }

  lemma {:induction false} CutShortens(s: string)
    ensures CutFirst(s).Some? ==> |CutFirst(s).value.1| < |s|
  {
    if s != "" && s[0] != '\n' {
      CutShortens(s[1..]);
    }
  }

  lemma {:induction false} NoNewlineNoCut(s: string)
    requires '\n' !in s
    ensures CutFirst(s).None?
  {
    if s != "" {
      NoNewlineNoCut(s[1..]);
    }
  }

  lemma {:induction false} LinesOfJoin(a: string, b: string)
    requires '\n' !in b
    ensures Lines(Join(a, b)) == Lines(a) + [b]
    decreases |a|
  {
    if '\n' !in a {
      CutFirstOfJoin(a, b);
      NoNewlineNoCut(a);
      NoNewlineNoCut(b);
    } else {
      var line, rest := FirstLine(a);
      CutFirstOfJoin(line, rest);
      CutShortens(a);
      LinesOfJoin(rest, b);
      JoinAssociates(line, rest, b);
      CutFirstOfJoin(line, Join(rest, b));
      assert [line] + (Lines(rest) + [b]) == [line] + Lines(rest) + [b];
    }
  }

  lemma {:induction false} FirstLine(a: string) returns (line: string, rest: string)
    requires '\n' in a
    ensures a == Join(line, rest) && '\n' !in line
  {
    if a[0] == '\n' {
      line, rest := "", a[1..];
    } else {
      assert a[1..] == a[1..] && a == [a[0]] + a[1..];
      line, rest := FirstLine(a[1..]);
      line := [a[0]] + line;
    }
  }

  /** What is signed, line by line: the tag, the upper-cased method, the path, the Unix time in decimal,
      the nonce, and the digest in lower-case hexadecimal. */
  lemma RequestLines(in': SigningInput, sha: Sha)
    requires Replay.ValidNonce(in'.nonce) && '\n' !in in'.method' && '\n' !in in'.path
    ensures Lines(CanonicalString(in', sha))
         == ["NETRA-v1", ToUpper(in'.method'), in'.path, Decimal(in'.timestamp), in'.nonce, Hex(sha(in'.body))]
  {
    UpperKeepsNewlines(in'.method');
    DecimalRoundTrip(in'.timestamp);
    HexRoundTrip(sha(in'.body));
    LinesOfSix(REQUEST_TAG, ToUpper(in'.method'), in'.path, Decimal(in'.timestamp), in'.nonce, Hex(sha(in'.body)));
  }

  lemma LinesOfThree(a: string, b: string, c: string)
    requires '\n' !in a && '\n' !in b && '\n' !in c
    ensures Lines(Join(Join(a, b), c)) == [a, b, c]
  {
    NoNewlineNoCut(a);
    LinesOfJoin(a, b);
    LinesOfJoin(Join(a, b), c);
  }

  lemma LinesOfSix(a: string, b: string, c: string, d: string, e: string, f: string)
    requires '\n' !in a && '\n' !in b && '\n' !in c && '\n' !in d && '\n' !in e && '\n' !in f
    ensures Lines(Join(Join(Join(Join(Join(a, b), c), d), e), f)) == [a, b, c, d, e, f]
  {
    LinesOfThree(a, b, c);
    var s := Join(Join(a, b), c);
    LinesOfJoin(s, d);
    LinesOfJoin(Join(s, d), e);
    LinesOfJoin(Join(Join(s, d), e), f);
  }

  lemma AttestationLines(nonce: string, subject: string)
    requires Sessions.NonceFormat(nonce) && '\n' !in subject
    ensures Lines(AttestationString(nonce, subject)) == ["NETRA-attest-v1", nonce, subject]
  {
    LinesOfThree(ATTEST_TAG, nonce, subject);
  }

  /** So one signature is good for one request: two requests with the same signed string differ in
      nothing but the letter case of the method, short of a SHA-256 collision between their bodies. */
  lemma SignatureBindsRequest(a: SigningInput, b: SigningInput, sha: Sha)
    requires Replay.ValidNonce(a.nonce) && Replay.ValidNonce(b.nonce) && '\n' !in a.method' && '\n' !in b.method'
    requires CanonicalString(a, sha) == CanonicalString(b, sha)
    ensures ToUpper(a.method') == ToUpper(b.method') && a.path == b.path
    ensures a.timestamp == b.timestamp && a.nonce == b.nonce
    ensures sha(a.body) == sha(b.body)
  {
    RequestDecodesIff(a, sha);
    RequestDecodesIff(b, sha);
  }

  /** The condition on the method is needed: a newline in it can be moved into the path. */
  lemma NewlineInMethodIsAmbiguous(first: string, second: string, path: string, in': SigningInput, sha: Sha)
    ensures CanonicalString(in'.(method' := Join(first, second), path := path), sha)
         == CanonicalString(in'.(method' := first, path := Join(ToUpper(second), path)), sha)
  {
    assert ToUpper(Join(first, second)) == Join(ToUpper(first), ToUpper(second));
    var u, v := ToUpper(first), ToUpper(second);
    JoinAssociates(REQUEST_TAG, u, v);
    JoinAssociates(Join(REQUEST_TAG, u), v, path);
  }

  /** For every nonce the session store accepts, and whatever the subject contains, the attestation
      decodes to nonce and subject. */
  lemma AttestationDecodesIff(nonce: string, subject: string)
    ensures DecodeAttestation(AttestationString(nonce, subject)) == Some((nonce, subject)) <==> '\n' !in nonce
    ensures Sessions.NonceFormat(nonce) ==> '\n' !in nonce
  {
    JoinAssociates(ATTEST_TAG, nonce, subject);
    CutFirstOfJoin(ATTEST_TAG, Join(nonce, subject));
    if '\n' !in nonce {
      CutFirstOfJoin(nonce, subject);
    } else {
      FirstLineHasNoNewline(Join(nonce, subject));
    }
  }

  /** A signature made for one purpose never serves the other. No condition on any field. */
  lemma RequestIsNoAttestation(in': SigningInput, sha: Sha, nonce: string, subject: string)
    ensures CanonicalString(in', sha) != AttestationString(nonce, subject)
  {
    CanonicalStarts(in', sha);
    assert AttestationString(nonce, subject)[6] == ATTEST_TAG[6];
  }

  lemma CanonicalStarts(in': SigningInput, sha: Sha)
    ensures |CanonicalString(in', sha)| > 8 && CanonicalString(in', sha)[6] == REQUEST_TAG[6]
  {
    var s1 := Join(REQUEST_TAG, ToUpper(in'.method'));
    var s2 := Join(s1, in'.path);
    var s3 := Join(s2, Decimal(in'.timestamp));
    var s4 := Join(s3, in'.nonce);
    assert s1[6] == REQUEST_TAG[6] && s2[6] == s1[6] && s3[6] == s2[6] && s4[6] == s3[6];
  }
}
