/** The IPv4-looking literal the syslog ingestor extracts from a message: the
    pattern `\b(?:\d{1,3}\.){3}\d{1,3}\b` and the first entry of `findall`. */
module IpPattern {
  import opened Wrappers
  import opened Text

  /** `\b` in front of `i`, where `s[i]` is a word character. */
  predicate BoundaryBefore(s: string, i: nat)
    requires i <= |s|
  {
    i == 0 || !IsWordChar(s[i - 1])
  }

  /** `\b` after `j`, where `s[j - 1]` is a word character. */
  predicate BoundaryAfter(s: string, j: nat)
    requires j <= |s|
  {
    j == |s| || !IsWordChar(s[j])
  }

  /** `\d{1,3}` fills `s[i..j]`. */
  predicate Octet(s: string, i: nat, j: nat) {
    i < j <= |s| && j - i <= 3 && forall k :: i <= k < j ==> IsDigit(s[k])
  }

  /** `s[i..j]` splits at the dots `a`, `b` and `c` into four octets. */
  predicate Groups(s: string, i: nat, a: nat, b: nat, c: nat, j: nat) {
    && Octet(s, i, a) && a < |s| && s[a] == '.'
    && Octet(s, a + 1, b) && b < |s| && s[b] == '.'
    && Octet(s, b + 1, c) && c < |s| && s[c] == '.'
    && Octet(s, c + 1, j)
  }

  /** The pattern matches `s[i..j]` (a reading of the regular expression that
      does not fix how the text splits into groups). */
  ghost predicate IpMatch(s: string, i: nat, j: nat) {
    && i <= j <= |s|
    && BoundaryBefore(s, i) && BoundaryAfter(s, j)
    && exists a: nat, b: nat, c: nat :: Groups(s, i, a, b, c, j)
  }

  /** End of the octet that starts at `i`: a run of one to three digits. A
      longer run never matches, since the character after any shorter prefix
      is a digit, which is neither a dot nor a word boundary. */
  function ReadOctet(s: string, i: nat): (r: Option<nat>)
    requires i <= |s|
    ensures r.Some? ==> Octet(s, i, r.value) && (r.value == |s| || !IsDigit(s[r.value]))
  {
    var j := SkipDigits(s, i);
    if i < j <= i + 3 then Some(j) else None
  }

  function ReadDot(s: string, i: nat): (r: Option<nat>)
    ensures r.Some? ==> i < |s| && s[i] == '.' && r.value == i + 1
  {
    if i < |s| && s[i] == '.' then Some(i + 1) else None
  }

  /** End of `(?:\d{1,3}\.){3}\d{1,3}` read from `i`. */
  function ReadQuad(s: string, i: nat): (r: Option<nat>)
    requires i <= |s|
    ensures r.Some? ==> i < r.value <= |s|
  {
    var a :- ReadOctet(s, i);
    var a1 :- ReadDot(s, a);
    var b :- ReadOctet(s, a1);
    var b1 :- ReadDot(s, b);
    var c :- ReadOctet(s, b1);
    var c1 :- ReadDot(s, c);
    ReadOctet(s, c1)
  }

  /** End of the match of the pattern at `i`, if it matches there. */
  function MatchAt(s: string, i: nat): (r: Option<nat>)
    requires i <= |s|
    ensures r.Some? ==> i < r.value <= |s|
  {
    if BoundaryBefore(s, i) then
      match ReadQuad(s, i)
      case Some(j) => if BoundaryAfter(s, j) then Some(j) else None
      case None => None
    else None
  }

  lemma ReadOctetOf(s: string, i: nat, j: nat)
    requires Octet(s, i, j) && (j == |s| || !IsDigit(s[j]))
    ensures ReadOctet(s, i) == Some(j)
  {
    SkipDigitsTo(s, i, j);
  }

  lemma ReadQuadSound(s: string, i: nat)
    requires i <= |s| && ReadQuad(s, i).Some?
    ensures exists a: nat, b: nat, c: nat :: Groups(s, i, a, b, c, ReadQuad(s, i).value)
  {
    var a := ReadOctet(s, i).value;
    var b := ReadOctet(s, a + 1).value;
    var c := ReadOctet(s, b + 1).value;
    assert Groups(s, i, a, b, c, ReadQuad(s, i).value);
  }

  lemma ReadQuadOf(s: string, i: nat, a: nat, b: nat, c: nat, j: nat)
    requires Groups(s, i, a, b, c, j) && (j == |s| || !IsDigit(s[j]))
    ensures ReadQuad(s, i) == Some(j)
  {
    OctetDotOf(s, i, a);
    OctetDotOf(s, a + 1, b);
    OctetDotOf(s, b + 1, c);
    ReadOctetOf(s, c + 1, j);
    ReadQuadSteps(s, i, a, b, c, j);
  }

  /** An octet followed by its dot is read as such. */
  lemma OctetDotOf(s: string, i: nat, a: nat)
    requires Octet(s, i, a) && a < |s| && s[a] == '.'
    ensures ReadOctet(s, i) == Some(a) && ReadDot(s, a) == Some(a + 1)
  {
    ReadOctetOf(s, i, a);
  }

  lemma ReadQuadSteps(s: string, i: nat, a: nat, b: nat, c: nat, j: nat)
    requires i <= |s|
    requires ReadOctet(s, i) == Some(a) && ReadDot(s, a) == Some(a + 1)
    requires ReadOctet(s, a + 1) == Some(b) && ReadDot(s, b) == Some(b + 1)
    requires ReadOctet(s, b + 1) == Some(c) && ReadDot(s, c) == Some(c + 1)
    requires ReadOctet(s, c + 1) == Some(j)
    ensures ReadQuad(s, i) == Some(j)
  {
  }

  lemma MatchAtSound(s: string, i: nat, j: nat)
    requires i <= |s| && MatchAt(s, i) == Some(j)
    ensures IpMatch(s, i, j)
  {
    ReadQuadSound(s, i);
  }

  lemma MatchAtComplete(s: string, i: nat, j: nat)
    requires IpMatch(s, i, j)
    ensures MatchAt(s, i) == Some(j)
  {
    var a: nat, b: nat, c: nat :| Groups(s, i, a, b, c, j);
    ReadQuadOf(s, i, a, b, c, j);
  }

  /** `MatchAt` finds exactly the matches of the pattern at `i`; in particular
      the pattern matches at most one text at each position. */
  lemma MatchAtCorrect(s: string, i: nat, j: nat)
    requires i <= |s|
    ensures MatchAt(s, i) == Some(j) <==> IpMatch(s, i, j)
  {
    if MatchAt(s, i) == Some(j) {
      MatchAtSound(s, i, j);
    }
    if IpMatch(s, i, j) {
      MatchAtComplete(s, i, j);
    }
  }

  /** Position and end of the leftmost match at or after `from`, scanning as
      `findall` does. */
  function FirstMatchFrom(s: string, from: nat): (r: Option<(nat, nat)>)
    requires from <= |s|
    ensures r.Some? ==> from <= r.value.0 < r.value.1 <= |s| && MatchAt(s, r.value.0) == Some(r.value.1)
    decreases |s| - from
  {
    match MatchAt(s, from)
    case Some(j) => Some((from, j))
    case None => if from == |s| then None else FirstMatchFrom(s, from + 1)
  }

  /** No position scanned before the one found matches, and none at all when
      nothing is found. */
  lemma {:induction false} FirstMatchFromEarliest(s: string, from: nat)
    requires from <= |s|
    ensures FirstMatchFrom(s, from).Some? ==> forall k :: from <= k < FirstMatchFrom(s, from).value.0 ==> MatchAt(s, k).None?
    ensures FirstMatchFrom(s, from).None? ==> forall k :: from <= k <= |s| ==> MatchAt(s, k).None?
    decreases |s| - from
  {
    if MatchAt(s, from).None? && from < |s| {
      FirstMatchFromEarliest(s, from + 1);
    }
  }

  /** `ips[0]` of `findall`, or `None` when the list is empty. */
  function FirstIp(message: string): (r: Option<string>)
  {
    match FirstMatchFrom(message, 0)
    case None => None
    case Some((i, j)) => Some(message[i..j])
  }

  /** `s[i..j]` is the leftmost match of the pattern. */
  ghost predicate Leftmost(s: string, i: nat, j: nat) {
    IpMatch(s, i, j) && forall k: nat, e: nat :: IpMatch(s, k, e) ==> i <= k
  }

  /** There is no IP address exactly when the pattern matches nowhere. */
  lemma FirstIpNone(message: string)
    ensures FirstIp(message).None? <==> forall i: nat, j: nat :: !IpMatch(message, i, j)
  {
    FirstMatchFromEarliest(message, 0);
    if FirstIp(message).None? {
      forall i: nat, j: nat ensures !IpMatch(message, i, j) {
        if i <= |message| {
          MatchAtCorrect(message, i, j);
        }
      }
    } else {
      var (i, j) := FirstMatchFrom(message, 0).value;
      MatchAtCorrect(message, i, j);
    }
  }

  /** The IP address found is the text of the leftmost match. */
  lemma FirstIpLeftmost(message: string)
    requires FirstIp(message).Some?
    ensures exists i: nat, j: nat :: Leftmost(message, i, j) && FirstIp(message).value == message[i..j]
  {
    var (i, j) := FirstMatchFrom(message, 0).value;
    FirstMatchFromEarliest(message, 0);
    MatchAtCorrect(message, i, j);
    forall k: nat, e: nat | IpMatch(message, k, e) ensures i <= k {
      MatchAtCorrect(message, k, e);
    }
    assert Leftmost(message, i, j);
  }

  /** Octets are not range-checked: `999.999.999.999` counts as an address. */
  lemma WideOctets()
    ensures FirstIp("999.999.999.999") == Some("999.999.999.999")
  {
    var s := "999.999.999.999";
    assert Groups(s, 0, 3, 7, 11, 15);
    MatchAtCorrect(s, 0, 15);
    assert s[0..15] == s;
  }

  /** A literal glued to a word character is not a match: `v1.2.3.4` yields
      nothing. */
  lemma GluedToWord()
    ensures FirstIp("v1.2.3.4").None?
  {
    var s := "v1.2.3.4";
    forall i: nat, j: nat ensures !IpMatch(s, i, j) {
      if i <= |s| {
        MatchAtCorrect(s, i, j);
        assert MatchAt(s, i).None?;
      }
    }
    FirstIpNone(s);
  }
}
