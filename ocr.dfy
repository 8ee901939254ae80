/** The part of `detect_text` after the OCR engine has produced its text:
    split the text into lines and normalise each line. The engine itself is
    not modelled; its text for each player card is an input. */
module Ocr {
  import opened Text

  function CountNewlines(s: string): nat {
    if s == [] then 0 else (if s[0] == '\n' then 1 else 0) + CountNewlines(s[1..])
  }

  /** `text.split('\n')`: the pieces between line breaks, in order, including
      the empty piece before a leading or after a trailing line break. */
  function SplitLines(s: string): (r: seq<string>)
    ensures |r| == CountNewlines(s) + 1
    ensures forall i :: 0 <= i < |r| ==> '\n' !in r[i]
  {
    if s == [] then [[]]
    else
      var rest := SplitLines(s[1..]);
      if s[0] == '\n' then [[]] + rest else [[s[0]] + rest[0]] + rest[1..]
  }

  /** The inverse of splitting: the pieces glued back with line breaks. */
  function JoinLines(pieces: seq<string>): string
    requires |pieces| >= 1
  {
    if |pieces| == 1 then pieces[0] else pieces[0] + ['\n'] + JoinLines(pieces[1..])
  }

  /** Splitting loses nothing: joining the pieces gives back the text. */
  lemma {:induction false} JoinSplitLines(s: string)
    ensures JoinLines(SplitLines(s)) == s
  {
    if s != [] {
      var rest := SplitLines(s[1..]);
      JoinSplitLines(s[1..]);
      if s[0] == '\n' {
        assert SplitLines(s)[1..] == rest;
      } else {
        var r := SplitLines(s);
        assert r[0] == [s[0]] + rest[0];
        assert r[1..] == rest[1..];
        if |rest| > 1 {
          assert JoinLines(rest) == rest[0] + ['\n'] + JoinLines(rest[1..]);
        }
      }
    }
  }

  /** Text without a line break in front of `t` extends the first piece of `t`. */
  lemma {:induction false} SplitLinesPrepend(a: string, t: string)
    requires '\n' !in a
    ensures SplitLines(a + t) == [a + SplitLines(t)[0]] + SplitLines(t)[1..]
  {
    if a == [] {
      var r := SplitLines(t);
      assert a + t == t && a + r[0] == r[0];
      assert [r[0]] + r[1..] == r;
    } else {
      assert (a + t)[1..] == a[1..] + t;
      SplitLinesPrepend(a[1..], t);
      assert [a[0]] + (a[1..] + SplitLines(t)[0]) == a + SplitLines(t)[0];
    }
  }

  /** Pieces without line breaks are recovered exactly by splitting their join. */
  lemma {:induction false} SplitJoinLines(pieces: seq<string>)
    requires |pieces| >= 1
    requires forall i :: 0 <= i < |pieces| ==> '\n' !in pieces[i]
    ensures SplitLines(JoinLines(pieces)) == pieces
  {
    if |pieces| == 1 {
      SplitLinesPrepend(pieces[0], []);
      assert pieces[0] + [] == pieces[0];
    } else {
      var tail := JoinLines(pieces[1..]);
      SplitJoinLines(pieces[1..]);
      assert SplitLines(['\n'] + tail) == [[]] + pieces[1..];
      assert pieces[0] + ['\n'] + tail == pieces[0] + (['\n'] + tail);
      SplitLinesPrepend(pieces[0], ['\n'] + tail);
      assert pieces[0] + [] == pieces[0];
    }
  }

  /** The lines `detect_text` returns for one card: every split piece, normalised. */
  function DetectText(text: string): seq<string> {
    var pieces := SplitLines(text);
    seq(|pieces|, i requires 0 <= i < |pieces| => Normalize(pieces[i]))
  }

  /** One line per piece of the split, in order, each a normalised key that
      normalising again leaves unchanged. */
  lemma DetectTextLines(text: string)
    ensures |DetectText(text)| == CountNewlines(text) + 1
    ensures forall i :: 0 <= i < |DetectText(text)| ==> DetectText(text)[i] == Normalize(SplitLines(text)[i])
    ensures forall d :: d in DetectText(text) ==> Normalize(d) == d
  {
    var pieces := SplitLines(text);
    forall d | d in DetectText(text) ensures Normalize(d) == d {
      var i :| 0 <= i < |pieces| && d == Normalize(pieces[i]);
      NormalizeIdempotent(pieces[i]);
    }
  }
}
