/** Texts laid out as bare code, block comments and line comments, and the labels they are read with. */
module ConfigLayout {
  import opened Wrappers
  import opened Text
  import opened SourceLexer
  import opened LexerShift
  import opened ConfigSplice
  import opened ConfigAppend
  import opened ConfigLines
  import opened ConfigGrowth

  datatype Layout = End | Bare(text: string, rest: Layout) | Block(text: string, rest: Layout) | Note(text: string, rest: Layout)

  function Laid(x: Layout): string { if x.End? then "" else x.text + Laid(x.rest) }

  function Marked(x: Layout): (r: seq<Kind>)
    ensures |r| == |Laid(x)|
  {
    if x.End? then [] else Fill(|x.text|, if x.Bare? then Code else Comment) + Marked(x.rest)
  }

  predicate IsBare(text: string) { forall k :: 0 <= k < |text| ==> IsPlain(text[k]) }

  predicate IsBlock(text: string) { |text| >= 4 && text[0] == '/' && text[1] == '*' && BlockEnd(text, 2) == Some(|text|) }

  predicate IsNote(text: string) { |text| >= 2 && text[0] == '/' && text[1] == '/' && IsLine(text) }

  /** Each stretch is what it is laid out as; a line comment ends with its line. */
  predicate Legible(x: Layout) {
    match x
    case End => true
    case Bare(text, rest) => IsBare(text) && Legible(rest)
    case Block(text, rest) => IsBlock(text) && Legible(rest)
    case Note(text, rest) => IsNote(text) && Legible(rest) && rest.Bare? && rest.text != "" && rest.text[0] == '\n'
  }

  lemma {:induction false} ReadsBlock(text: string, s: string, pre: seq<Kind>)
    requires IsBlock(text) && Agree(text, s, |pre|, 0, |text|)
    ensures ReadsOn(s, pre, pre + Fill(|text|, Comment))
  {
    hide BlockEnd, RunTo;
    AgreeAt(text, s, |pre|, 0, |text|, 0);
    AgreeAt(text, s, |pre|, 0, |text|, 1);
    AgreePart(text, s, |pre|, 0, |text|, 2, |text|);
    BlockEndShift(text, s, |pre|, 2);
    CommentReads(s, pre, |pre| + |text|);
    AgreePrefix(pre, pre + Fill(|text|, Comment), |pre|);
  }

  lemma {:induction false} ReadsNote(text: string, s: string, pre: seq<Kind>)
    requires IsNote(text) && Agree(text, s, |pre|, 0, |text|) && At(s, |pre| + |text|, '\n')
    ensures ReadsOn(s, pre, pre + Fill(|text|, Comment))
  {
    hide OpensRegex, LineEnd;
    var c, n := |pre|, |text|;
    var mid := pre + Fill(n, Comment);
    AgreeAt(text, s, c, 0, n, 0);
    AgreeAt(text, s, c, 0, n, 1);
    forall k | c <= k < c + n ensures s[k] != '\n' { assert text[k - c] == s[k - c + c]; }
    assert LineEnd(s, c) == c + n;
    assert pre[..c] == pre;
    assert Step(s, LexState(pre, [])) == Success(LexState(mid, []));
    assert RunTo(s, LexState(mid, []), c + n) == Success(LexState(mid, []));
    AgreePrefix(pre, mid, c);
  }

  lemma {:induction false} ReadsBare(text: string, s: string, pre: seq<Kind>)
    requires IsBare(text) && Agree(text, s, |pre|, 0, |text|)
    ensures ReadsOn(s, pre, pre + Fill(|text|, Code))
  {
    hide RunTo;
    forall k | |pre| <= k < |pre| + |text| ensures IsPlain(s[k]) { assert text[k - |pre|] == s[k - |pre| + |pre|]; }
    ReadsPlainText(s, pre, |text|);
  }

  lemma {:induction false} LayoutReads(x: Layout, s: string, pre: seq<Kind>)
    requires Legible(x) && Agree(Laid(x), s, |pre|, 0, |Laid(x)|)
    ensures ReadsOn(s, pre, pre + Marked(x))
    decreases x
  {
    hide RunTo, Agree, IsBare, IsBlock, IsNote, ReadsOn;
    if x.End? {
      AgreeBounds(Laid(x), s, |pre|, 0, 0);
      assert pre + [] == pre;
      ReadsNothing(s, pre);
    } else {
      AgreeHead(x.text, Laid(x.rest), s, |pre|);
      var mid := pre + Fill(|x.text|, if x.Bare? then Code else Comment);
      match x {
        case Bare(text, _) => ReadsBare(text, s, pre);
        case Block(text, _) => ReadsBlock(text, s, pre);
        case Note(text, rest) =>
          AgreeBounds(Laid(rest), s, |mid|, 0, |Laid(rest)|);
          AgreeAt(Laid(rest), s, |mid|, 0, |Laid(rest)|, 0);
          ReadsNote(text, s, pre);
      }
      LayoutReads(x.rest, s, mid);
      Assoc(pre, Fill(|x.text|, if x.Bare? then Code else Comment), Marked(x.rest));
      ReadsOnTrans(s, pre, mid, pre + Marked(x));
    }
  }

  /** A legible layout is read with its labels. */
  lemma {:induction false} LayoutLex(x: Layout)
    requires Legible(x)
    ensures Labelled(Laid(x), Marked(x))
  {
    hide Step, Laid, Marked, Legible;
    AgreeSelf(Laid(x));
    LayoutReads(x, Laid(x), []);
    assert [] + Marked(x) == Marked(x);
  }
}
