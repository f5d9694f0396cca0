/** The shape shared by both prompt f-strings: a fixed head ending in a
    `---` line, the retrieved ticket text verbatim, a fixed separator that
    closes the ticket with a second `---` line and opens the quoted user
    question, the question verbatim, and a fixed tail that closes the quote
    and gives the instructions. Parse is the inverse of Render. */
module PromptTemplate {
  import opened Python

  /** From the end of the ticket text to the opening quote of the question. */
  const Separator: string := "\n---\n\nA user now asks: \""

  datatype Template = Template(head: string, tail: string)

  /** The prompt an f-string template produces for a history and a question. */
  function Render(t: Template, history: string, query: string): string {
    t.head + history + Separator + query + t.tail
  }

  predicate OccursAt(s: string, pat: string, j: int) {
    0 <= j && j + |pat| <= |s| && s[j..j + |pat|] == pat
  }

  predicate Contains(s: string, pat: string) {
    exists j | 0 <= j <= |s| :: OccursAt(s, pat, j)
  }

  /** The first position at or after `i` where `pat` occurs in `s`. */
  function FindFrom(s: string, pat: string, i: nat): (r: Option<nat>)
    requires i <= |s|
    ensures r.Some? ==> i <= r.value && OccursAt(s, pat, r.value)
    ensures r.Some? ==> forall j :: i <= j < r.value ==> !OccursAt(s, pat, j)
    ensures r.None? ==> forall j :: i <= j ==> !OccursAt(s, pat, j)
    decreases |s| - i
  {
    if i + |pat| > |s| then None
    else if s[i..i + |pat|] == pat then Some(i)
    else FindFrom(s, pat, i + 1)
  }

  /** Recovers the history and the question from a rendered prompt: strips
      the template's head and tail and splits at the first separator. */
  function Parse(t: Template, p: string): Option<(string, string)> {
    if |p| < |t.head| + |t.tail| || p[..|t.head|] != t.head || p[|p| - |t.tail|..] != t.tail then None
    else
      var body := p[|t.head|..|p| - |t.tail|];
      match FindFrom(body, Separator, 0)
      case None => None
      case Some(i) => Some((body[..i], body[i + |Separator|..]))
  }

  /** The separator holds line breaks only at positions 0, 4 and 5. */
  lemma SeparatorLineBreaks(j: int)
    requires 0 <= j < |Separator|
    ensures Separator[j] == '\n' <==> j == 0 || j == 4 || j == 5
  {
    match j
      case 0 =>
      case 4 =>
      case 5 =>
      case 1 => assert Separator[1] != '\n';
      case 2 => assert Separator[2] != '\n';
      case 3 => assert Separator[3] != '\n';
      case 6 => assert Separator[6] != '\n';
      case 7 => assert Separator[7] != '\n';
      case 8 => assert Separator[8] != '\n';
      case 9 => assert Separator[9] != '\n';
      case 10 => assert Separator[10] != '\n';
      case 11 => assert Separator[11] != '\n';
      case 12 => assert Separator[12] != '\n';
      case 13 => assert Separator[13] != '\n';
      case 14 => assert Separator[14] != '\n';
      case 15 => assert Separator[15] != '\n';
      case 16 => assert Separator[16] != '\n';
      case 17 => assert Separator[17] != '\n';
      case 18 => assert Separator[18] != '\n';
      case 19 => assert Separator[19] != '\n';
      case 20 => assert Separator[20] != '\n';
      case 21 => assert Separator[21] != '\n';
      case 22 => assert Separator[22] != '\n';
      case 23 => assert Separator[23] != '\n';
  }

  /** No proper suffix of the separator is also a prefix of it, so an
      occurrence of it cannot overlap the separator's own start. */
  lemma SeparatorUnbordered(k: int)
    requires 0 < k < |Separator|
    ensures Separator[k..] != Separator[..|Separator| - k]
  {
    var suffix := Separator[k..];
    var prefix := Separator[..|Separator| - k];
    if k == 4 || k == 5 {
      SeparatorLineBreaks(k + 1);
      assert suffix[1] == Separator[k + 1] != Separator[1] == prefix[1];
    } else {
      SeparatorLineBreaks(k);
      assert suffix[0] == Separator[k] != Separator[0] == prefix[0];
    }
  }

  /** `pat` overlaps itself nowhere: no proper suffix is also a prefix. */
  predicate Unbordered(pat: string) {
    forall k | 0 < k < |pat| :: pat[k..] != pat[..|pat| - k]
  }

  lemma SeparatorIsUnbordered()
    ensures Unbordered(Separator)
  {
    forall k | 0 < k < |Separator| ensures Separator[k..] != Separator[..|Separator| - k] {
      SeparatorUnbordered(k);
    }
  }

  /** An occurrence of `pat` in `h + pat + q` that starts inside `h` and
      runs past its end makes a proper suffix of `pat` equal to a prefix. */
  lemma OverlapIsBorder(h: string, pat: string, q: string, j: int)
    requires 0 <= j < |h| < j + |pat|
    requires OccursAt(h + pat + q, pat, j)
    ensures pat[|h| - j..] == pat[..|pat| - (|h| - j)]
  {
    var body := h + pat + q;
    var k := |h| - j;
    assert body[j..j + |pat|][k..] == body[|h|..j + |pat|];
    assert body[|h|..j + |pat|] == pat[..|pat| - k];
  }

  /** In `h + pat + q`, with `pat` unbordered and absent from `h`, no
      occurrence of `pat` starts inside `h`. */
  lemma {:induction false} FirstOccurrenceAfter(h: string, pat: string, q: string, j: int)
    requires Unbordered(pat) && !Contains(h, pat)
    requires 0 <= j < |h|
    ensures !OccursAt(h + pat + q, pat, j)
  {
    var body := h + pat + q;
    if OccursAt(body, pat, j) {
      if j + |pat| <= |h| {
        assert h[j..j + |pat|] == body[j..j + |pat|];
        assert OccursAt(h, pat, j);
      } else {
        OverlapIsBorder(h, pat, q, j);
      }
    }
  }

  /** Parse undoes Render whenever the history does not itself contain the
      separator; the question may be anything. */
  lemma {:induction false} ParseRender(t: Template, h: string, q: string)
    requires !Contains(h, Separator)
    ensures Parse(t, Render(t, h, q)) == Some((h, q))
  {
    var p := Render(t, h, q);
    var body := h + Separator + q;
    assert p == t.head + body + t.tail;
    assert p[..|t.head|] == t.head;
    assert p[|p| - |t.tail|..] == t.tail;
    assert p[|t.head|..|p| - |t.tail|] == body;
    assert OccursAt(body, Separator, |h|);
    SeparatorIsUnbordered();
    forall j | 0 <= j < |h| ensures !OccursAt(body, Separator, j) {
      FirstOccurrenceAfter(h, Separator, q, j);
    }
    assert FindFrom(body, Separator, 0) == Some(|h|);
    assert body[..|h|] == h;
    assert body[|h| + |Separator|..] == q;
  }

  /** Different (history, question) pairs give different prompts, as long as
      neither history contains the separator. */
  lemma RenderInjective(t: Template, h1: string, q1: string, h2: string, q2: string)
    requires !Contains(h1, Separator) && !Contains(h2, Separator)
    requires Render(t, h1, q1) == Render(t, h2, q2)
    ensures h1 == h2 && q1 == q2
  {
    ParseRender(t, h1, q1);
    ParseRender(t, h2, q2);
  }

  /** Where each piece sits in a rendered prompt: the history right after the
      head, and the question right after the history and the separator. */
  lemma RenderEmbedsVerbatim(t: Template, h: string, q: string)
    ensures var p := Render(t, h, q);
      var a := |t.head|;
      var b := a + |h| + |Separator|;
      p[..a] == t.head && p[a..a + |h|] == h && p[a + |h|..b] == Separator &&
      p[b..b + |q|] == q && p[b + |q|..] == t.tail
  {
  }
}
