/**
 ICE candidate filtering: a candidate list is refused if any candidate says, as whole words and in any case,
 that it is of a type that would expose the sender's address.
 */
module Ice {
  /** The Unicode White_Space characters. */
  predicate IsSpace(c: char) {
    var n := c as int;
    0x9 <= n <= 0xD || n == 0x20 || n == 0x85 || n == 0xA0 || n == 0x1680 || 0x2000 <= n <= 0x200A
    || n == 0x2028 || n == 0x2029 || n == 0x202F || n == 0x205F || n == 0x3000
  }

  function Lower(s: string): (r: string)
    ensures |r| == |s|
  {
    seq(|s|, i requires 0 <= i < |s| => if 'A' <= s[i] <= 'Z' then ((s[i] as int) + 32) as char else s[i])
  }

  /** Length of the leading run without white space. */
  function WordLen(s: string): (k: nat)
    ensures k <= |s| && (forall i :: 0 <= i < k ==> !IsSpace(s[i])) && (k < |s| ==> IsSpace(s[k]))
  {
    if s == "" || IsSpace(s[0]) then 0 else 1 + WordLen(s[1..])
  }

  /** Maximal runs without white space, in order. */
  function Words(s: string): seq<string>
    decreases |s|
  {
    if s == "" then []
    else if IsSpace(s[0]) then Words(s[1..])
    else [s[..WordLen(s)]] + Words(s[WordLen(s)..])
  }

  predicate Adjacent(ws: seq<string>, u: string, v: string) {
    exists i :: 0 <= i < |ws| - 1 && ws[i] == u && ws[i + 1] == v
  }

  /** The candidate's type field, compared word by word. */
  method IceTyp(candidate: string, typ: string) returns (found: bool)
    ensures found <==> Adjacent(Words(candidate), "typ", typ)
  {
    var ws := Words(candidate);
    var prev := "";
    for i := 0 to |ws|
      invariant prev == if i == 0 then "" else ws[i - 1]
      invariant forall k :: 0 <= k < i - 1 ==> !(ws[k] == "typ" && ws[k + 1] == typ)
    {
      if prev == "typ" && ws[i] == typ { return true; }
      prev := ws[i];
    }
    return false;
  }

  predicate Direct(candidate: string) {
    var lower := Words(Lower(candidate));
    Adjacent(lower, "typ", "host") || Adjacent(lower, "typ", "srflx")
  }

  method RejectDirectIce(ice: seq<string>) returns (ok: bool)
    ensures ok <==> NoDirect(ice)
  {
    for i := 0 to |ice|
      invariant forall k :: 0 <= k < i ==> !Direct(ice[k])
    {
      var lower := Lower(ice[i]);
      var host := IceTyp(lower, "host");
      var srflx := IceTyp(lower, "srflx");
      if host || srflx { return false; }
    }
    return true;
  }

  predicate NoDirect(ice: seq<string>) {
    forall i :: 0 <= i < |ice| ==> !Direct(ice[i])
  }

  predicate Spaceless(s: string) {
    forall i :: 0 <= i < |s| ==> !IsSpace(s[i])
  }

  predicate AllSpace(s: string) {
    forall i :: 0 <= i < |s| ==> IsSpace(s[i])
  }

  /** `u` and `v` stand in the text as whole words with nothing but white space between them. */
  ghost predicate Phrase(s: string, a: string, u: string, w: string, v: string, b: string) {
    && s == a + u + w + v + b
    && (a != "" ==> IsSpace(a[|a| - 1]))
    && w != "" && AllSpace(w)
    && (b != "" ==> IsSpace(b[0]))
  }

  lemma {:induction false} SkipSpace(w: string, s: string)
    requires AllSpace(w)
    ensures Words(w + s) == Words(s)
    decreases |w|
  {
    if w == "" {
      assert w + s == s;
    } else {
      assert (w + s)[1..] == w[1..] + s;
      SkipSpace(w[1..], s);
    }
  }

  lemma FirstWord(u: string, s: string)
    requires u != "" && Spaceless(u) && (s != "" ==> IsSpace(s[0]))
    ensures Words(u + s) == [u] + Words(s)
  {
    var t := u + s;
    var k := WordLen(t);
    assert t[0] == u[0];
    assert forall i :: 0 <= i < |u| ==> t[i] == u[i];
    assert |u| < |t| ==> t[|u|] == s[0];
    assert k == |u|;
    assert t[..k] == u && t[k..] == s;
  }

  lemma PhraseTail(s: string, a: string, u: string, w: string, v: string, b: string, k: nat)
    requires Phrase(s, a, u, w, v, b) && k <= |a|
    ensures k <= |s| && Phrase(s[k..], a[k..], u, w, v, b)
  {
    var t := u + w + v + b;
    Reassociate(a, u, w, v, b);
    CutFront(a, t, k);
    Reassociate(a[k..], u, w, v, b);
  }

  lemma Reassociate(a: string, u: string, w: string, v: string, b: string)
    ensures a + u + w + v + b == a + (u + w + v + b)
  {
  }

  lemma CutFront(a: string, t: string, k: nat)
    requires k <= |a|
    ensures (a + t)[k..] == a[k..] + t
  {
  }

  lemma PhraseAfter(p: string, s: string, a: string, u: string, w: string, v: string, b: string)
    requires Phrase(s, a, u, w, v, b) && (a == "" && p != "" ==> IsSpace(p[|p| - 1]))
    ensures Phrase(p + s, p + a, u, w, v, b)
  {
    assert p + s == p + a + (u + w + v + b);
  }

  lemma AdjacentLater(ws: seq<string>, x: string, u: string, v: string)
    requires Adjacent(ws, u, v)
    ensures Adjacent([x] + ws, u, v)
  {
    var i :| 0 <= i < |ws| - 1 && ws[i] == u && ws[i + 1] == v;
    assert ([x] + ws)[i + 1] == u && ([x] + ws)[i + 2] == v;
  }

  /** A phrase in the text gives two neighbouring words. */
  lemma {:induction false} PhraseIsAdjacent(s: string, a: string, u: string, w: string, v: string, b: string)
    requires u != "" && v != "" && Spaceless(u) && Spaceless(v) && Phrase(s, a, u, w, v, b)
    ensures Adjacent(Words(s), u, v)
    decreases |a|
  {
    if a == "" {
      assert s == u + (w + (v + b));
      FirstWord(u, w + (v + b));
      SkipSpace(w, v + b);
      FirstWord(v, b);
      var ws := Words(s);
      assert ws == [u] + ([v] + Words(b));
      assert ws[0] == u && ws[1] == v;
    } else {
      assert s[0] == a[0] && s[|a| - 1] == a[|a| - 1] by { assert s == a + (u + w + v + b); }
      var k := if IsSpace(s[0]) then 1 else WordLen(s);
      assert 1 <= k <= |a|;
      PhraseTail(s, a, u, w, v, b, k);
      hide Phrase;
      PhraseIsAdjacent(s[k..], a[k..], u, w, v, b);
      if !IsSpace(s[0]) { AdjacentLater(Words(s[k..]), s[..k], u, v); }
    }
  }

  /** Two neighbouring words come from a phrase in the text. */
  lemma {:induction false} AdjacentIsPhrase(s: string, i: nat) returns (a: string, w: string, b: string)
    requires i + 1 < |Words(s)|
    ensures Phrase(s, a, Words(s)[i], w, Words(s)[i + 1], b)
    ensures IsSpace(s[0]) ==> a != ""
    decreases |s|
  {
    hide Phrase;
    if IsSpace(s[0]) || i > 0 {
      var k, j := LaterWords(s, i);
      hide Words;
      a, w, b := AdjacentIsPhrase(s[k..], j);
      LongerPhrase(s, k, a, Words(s)[i], w, Words(s)[i + 1], b);
      a := s[..k] + a;
    } else {
      a := "";
      w, b := FirstPhrase(s);
    }
  }

  /** The same two words, further on in the text. */
  lemma LaterWords(s: string, i: nat) returns (k: nat, j: nat)
    requires i + 1 < |Words(s)| && (IsSpace(s[0]) || i > 0)
    ensures 0 < k <= |s| && j + 1 < |Words(s[k..])|
    ensures Words(s[k..])[j] == Words(s)[i] && Words(s[k..])[j + 1] == Words(s)[i + 1]
    ensures IsSpace(s[k - 1]) || (k < |s| && IsSpace(s[k]))
  {
    WordsStart(s);
    hide Words;
    if IsSpace(s[0]) { k, j := 1, i; } else { k, j := WordLen(s), i - 1; }
  }

  /** How the words of a text begin. */
  lemma WordsStart(s: string)
    requires Words(s) != []
    ensures s != "" && (IsSpace(s[0]) || WordLen(s) > 0)
    ensures IsSpace(s[0]) ==> Words(s) == Words(s[1..])
    ensures !IsSpace(s[0]) ==> Words(s) == [s[..WordLen(s)]] + Words(s[WordLen(s)..])
  {
  }

  lemma LongerPhrase(s: string, k: nat, a: string, u: string, w: string, v: string, b: string)
    requires 0 < k <= |s| && Phrase(s[k..], a, u, w, v, b) && (a == "" ==> IsSpace(s[k - 1]))
    ensures Phrase(s, s[..k] + a, u, w, v, b)
  {
    assert s == s[..k] + s[k..];
    PhraseAfter(s[..k], s[k..], a, u, w, v, b);
    hide Phrase;
  }

  lemma FirstPhrase(s: string) returns (w: string, b: string)
    requires |Words(s)| > 1 && !IsSpace(s[0])
    ensures Phrase(s, "", Words(s)[0], w, Words(s)[1], b)
  {
    var k := WordLen(s);
    assert Words(s)[1..] == Words(s[k..]);
    var v;
    w, v, b := LeadingWord(s[k..]);
    hide Words;
    assert s == "" + s[..k] + w + v + b;
  }

  lemma {:induction false} LeadingWord(s: string) returns (w: string, v: string, b: string)
    requires |Words(s)| > 0
    ensures s == w + v + b && AllSpace(w) && v == Words(s)[0] && (b != "" ==> IsSpace(b[0]))
    ensures IsSpace(s[0]) ==> w != ""
    decreases |s|
  {
    WordsStart(s);
    hide Words;
    if IsSpace(s[0]) {
      w, v, b := LeadingWord(s[1..]);
      assert s == s[..1] + (w + v + b) == s[..1] + w + v + b;
      w := s[..1] + w;
    } else {
      var k := WordLen(s);
      w, v, b := "", s[..k], s[k..];
    }
  }

  /** The word test on a candidate is the textual one: some `typ` is followed by the type, as whole words. */
  ghost predicate Says(s: string, u: string, v: string) {
    exists a, w, b :: Phrase(s, a, u, w, v, b)
  }

  lemma WordsAreText(s: string, u: string, v: string)
    requires u != "" && v != "" && Spaceless(u) && Spaceless(v)
    ensures Adjacent(Words(s), u, v) <==> Says(s, u, v)
  {
    if Adjacent(Words(s), u, v) {
      var i :| 0 <= i < |Words(s)| - 1 && Words(s)[i] == u && Words(s)[i + 1] == v;
      var a, w, b := AdjacentIsPhrase(s, i);
    }
    if Says(s, u, v) {
      var a, w, b :| Phrase(s, a, u, w, v, b);
      PhraseIsAdjacent(s, a, u, w, v, b);
    }
  }
}
