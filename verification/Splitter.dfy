/** Splitting a long response across chat messages. */
module Splitter {
  import opened Text

  /** Where to cut a text longer than the limit: at the last newline of the first half or later, else
      at the last space there, else at the limit. */
  function CutAt(s: string, limit: nat): int
    requires limit < |s|
  {
    var newline := RFind('\n', s, limit);
    var cut := if newline < limit / 2 then RFind(' ', s, limit) else newline;
    if cut < limit / 2 then limit else cut
  }

  /** The cut is at the last break of the second half of the limit, if there is one; else at the last
      space there, if there is one; else at the limit. */
  lemma CutMeans(s: string, limit: nat)
    requires limit < |s|
    ensures var half, cut := limit / 2, CutAt(s, limit);
            && half <= cut <= limit
            && (if exists i :: half <= i < limit && s[i] == '\n'
                then cut < limit && s[cut] == '\n' && forall i :: cut < i < limit ==> s[i] != '\n'
                else if exists i :: half <= i < limit && s[i] == ' '
                then cut < limit && s[cut] == ' ' && forall i :: cut < i < limit ==> s[i] != ' '
                else cut == limit)
  {
  }

  /** The fewest characters a cut consumes. */
  function Stride(limit: nat): (h: nat)
    requires limit >= 1
    ensures 1 <= h <= limit
  {
    if limit / 2 >= 1 then limit / 2 else 1
  }

  lemma CutAdvances(s: string, limit: nat)
    requires 1 <= limit < |s| && !IsSpace(s[0])
    ensures Stride(limit) <= CutAt(s, limit) <= limit
  {
  }

  /** Stripping one end keeps everything up to a printing character. */
  lemma PrintingStays(s: string, i: nat)
    requires i < |s| && !IsSpace(s[i])
    ensures |RStrip(s)| > i && |LStrip(s)| >= |s| - i
  {
  }

  /** A piece before the cut is not empty, and neither is what is left: both are stripped. */
  lemma CutLeavesBoth(s: string, limit: nat)
    requires 1 <= limit < |s| && Stripped(s)
    ensures 0 < CutAt(s, limit) <= limit
    ensures var piece := RStrip(s[..CutAt(s, limit)]); piece != "" && Stripped(piece) && |piece| <= limit
    ensures var rest := LStrip(s[CutAt(s, limit)..]);
            rest != "" && Stripped(rest) && |rest| + Stride(limit) <= |s|
  {
    CutAdvances(s, limit);
    var cut := CutAt(s, limit);
    var piece, rest := RStrip(s[..cut]), LStrip(s[cut..]);
    PrintingStays(s[..cut], 0);
    assert piece[0] == s[0];
    PrintingStays(s[cut..], |s| - cut - 1);
    assert rest[|rest| - 1] == s[|s| - 1];
  }

  function Pieces(s: string, limit: nat): seq<string>
    requires limit >= 1 && s != "" && Stripped(s)
    decreases |s|
  {
    if |s| <= limit then [s]
    else
      CutLeavesBoth(s, limit);
      [RStrip(s[..CutAt(s, limit)])] + Pieces(LStrip(s[CutAt(s, limit)..]), limit)
  }

  lemma PiecesOfLong(s: string, limit: nat)
    requires 1 <= limit < |s| && Stripped(s)
    ensures 0 < CutAt(s, limit) <= limit
    ensures var piece, rest := RStrip(s[..CutAt(s, limit)]), LStrip(s[CutAt(s, limit)..]);
            rest != "" && Stripped(rest) && |rest| < |s| && Pieces(s, limit) == [piece] + Pieces(rest, limit)
  {
    hide CutAt, RStrip, LStrip;
    CutLeavesBoth(s, limit);
  }

  const EMPTY: string := "(empty response)"

  lemma EmptyIsStripped()
    ensures EMPTY != "" && Stripped(EMPTY)
  {
  }

  /** What is sent for a text: its stripped form, or a placeholder. */
  function Sent(text: string): (s: string)
    ensures s != "" && Stripped(s)
  {
    EmptyIsStripped();
    if Strip(text) == "" then EMPTY else Strip(text)
  }

  /** The splitting loop; what remains is always stripped and not empty. */
  method SplitMessages(text: string, limit: nat) returns (chunks: seq<string>)
    requires limit >= 1
    ensures chunks == Pieces(Sent(text), limit)
  {
    hide Pieces, Stripped, RStrip, LStrip, Sent, RFind, IsSpace;
    var stripped := Sent(text);
    if |stripped| <= limit {
      PiecesOfShort(stripped, limit);
      return [stripped];
    }
    chunks := [];
    var remaining := stripped;
    while remaining != ""
      invariant remaining != "" && Stripped(remaining)
      invariant chunks + Pieces(remaining, limit) == Pieces(stripped, limit)
      decreases |remaining|
    {
      if |remaining| <= limit {
        PiecesOfShort(remaining, limit);
        chunks := chunks + [remaining];
        break;
      }
      OneCut(chunks, remaining, limit);
      var splitAt := RFind('\n', remaining, limit);
      if splitAt < limit / 2 { splitAt := RFind(' ', remaining, limit); }
      if splitAt < limit / 2 { splitAt := limit; }
      chunks := chunks + [RStrip(remaining[..splitAt])];
      remaining := LStrip(remaining[splitAt..]);
    }
  }

  lemma OneCut(chunks: seq<string>, s: string, limit: nat)
    requires 1 <= limit < |s| && Stripped(s)
    ensures 0 < CutAt(s, limit) <= limit
    ensures var piece, rest := RStrip(s[..CutAt(s, limit)]), LStrip(s[CutAt(s, limit)..]);
            && rest != "" && Stripped(rest) && |rest| < |s|
            && chunks + [piece] + Pieces(rest, limit) == chunks + Pieces(s, limit)
  {
    hide Pieces, Stripped, RStrip, LStrip, CutAt;
    PiecesOfLong(s, limit);
    var piece, later := RStrip(s[..CutAt(s, limit)]), Pieces(LStrip(s[CutAt(s, limit)..]), limit);
    assert chunks + ([piece] + later) == chunks + [piece] + later;
  }

  lemma PiecesOfShort(s: string, limit: nat)
    requires limit >= 1 && s != "" && Stripped(s) && |s| <= limit
    ensures Pieces(s, limit) == [s]
  {
  }

  // ----- nothing is lost, and not too many messages

  /** The characters of a text that are not white space, in order. */
  function Printing(s: string): string {
    if s == "" then "" else Printing(s[..|s| - 1]) + if IsSpace(s[|s| - 1]) then "" else [s[|s| - 1]]
  }

  function Joined(pieces: seq<string>): string {
    if pieces == [] then "" else pieces[0] + Joined(pieces[1..])
  }

  lemma {:induction false} PrintingOfConcat(a: string, b: string)
    ensures Printing(a + b) == Printing(a) + Printing(b)
  {
    if b == "" {
      assert a + b == a;
    } else {
      var n := |b| - 1;
      assert (a + b)[..|a + b| - 1] == a + b[..n];
      PrintingOfConcat(a, b[..n]);
    }
  }

  lemma {:induction false} PrintingOfSpace(s: string)
    requires forall i :: 0 <= i < |s| ==> IsSpace(s[i])
    ensures Printing(s) == ""
  {
    if s != "" { PrintingOfSpace(s[..|s| - 1]); }
  }

  lemma StripsKeepPrinting(s: string)
    ensures Printing(LStrip(s)) == Printing(s) && Printing(RStrip(s)) == Printing(s) && Printing(Strip(s)) == Printing(s)
  {
    LStripKeepsPrinting(s);
    RStripKeepsPrinting(s);
    RStripKeepsPrinting(LStrip(s));
  }

  lemma LStripKeepsPrinting(s: string)
    ensures Printing(LStrip(s)) == Printing(s)
  {
    var n := |s| - |LStrip(s)|;
    assert s == s[..n] + LStrip(s);
    PrintingOfConcat(s[..n], LStrip(s));
    PrintingOfSpace(s[..n]);
  }

  lemma RStripKeepsPrinting(s: string)
    ensures Printing(RStrip(s)) == Printing(s)
  {
    var n := |RStrip(s)|;
    assert s == RStrip(s) + s[n..];
    PrintingOfConcat(RStrip(s), s[n..]);
    PrintingOfSpace(s[n..]);
  }

  /** Every message is non-empty, within the limit and without white space at its ends. */
  lemma {:induction false} PiecesFit(s: string, limit: nat)
    requires limit >= 1 && s != "" && Stripped(s)
    ensures forall p :: p in Pieces(s, limit) ==> p != "" && |p| <= limit && Stripped(p)
    decreases |s|
  {
    hide Stripped, RStrip, LStrip, CutAt;
    if |s| > limit {
      PiecesOfLong(s, limit);
      CutLeavesBoth(s, limit);
      PiecesFit(LStrip(s[CutAt(s, limit)..]), limit);
    }
  }

  /** The messages together carry the text's printing characters, all of them and in order. */
  lemma {:induction false} PiecesKeepPrinting(s: string, limit: nat)
    requires limit >= 1 && s != "" && Stripped(s)
    ensures Printing(Joined(Pieces(s, limit))) == Printing(s)
    decreases |s|
  {
    hide Stripped, RStrip, LStrip, CutAt, Printing;
    if |s| <= limit {
      assert Joined([s]) == s + Joined([]) == s;
    } else {
      PiecesOfLong(s, limit);
      var cut := CutAt(s, limit);
      var piece, rest := RStrip(s[..cut]), LStrip(s[cut..]);
      PiecesKeepPrinting(rest, limit);
      JoinedOfCons(piece, Pieces(rest, limit));
      PrintingOfConcat(piece, Joined(Pieces(rest, limit)));
      CutKeepsPrinting(s, cut);
    }
  }

  lemma CutKeepsPrinting(s: string, cut: nat)
    requires cut <= |s|
    ensures Printing(RStrip(s[..cut])) + Printing(LStrip(s[cut..])) == Printing(s)
  {
    hide RStrip, LStrip, Printing;
    StripsKeepPrinting(s[..cut]);
    StripsKeepPrinting(s[cut..]);
    assert s == s[..cut] + s[cut..];
    PrintingOfConcat(s[..cut], s[cut..]);
  }

  lemma JoinedOfCons(piece: string, later: seq<string>)
    ensures Joined([piece] + later) == piece + Joined(later)
  {
    assert ([piece] + later)[1..] == later;
  }

  function Consumed(cuts: nat, h: nat): nat {
    cuts * h
  }

  lemma ConsumedByNext(cuts: nat, h: nat)
    ensures Consumed(0, h) == 0 && Consumed(cuts + 1, h) == Consumed(cuts, h) + h
  {
  }

  lemma {:induction false} CutsConsume(s: string, limit: nat)
    requires limit >= 1 && s != "" && Stripped(s)
    ensures 1 <= |Pieces(s, limit)| && Consumed(|Pieces(s, limit)| - 1, Stride(limit)) <= |s| - 1
    decreases |s|
  {
    hide Stripped, RStrip, LStrip, CutAt, Stride, Consumed;
    var h := Stride(limit);
    if |s| <= limit {
      PiecesOfShort(s, limit);
      ConsumedByNext(0, h);
    } else {
      PiecesOfLong(s, limit);
      CutLeavesBoth(s, limit);
      var rest := LStrip(s[CutAt(s, limit)..]);
      CutsConsume(rest, limit);
      ConsumedByNext(|Pieces(rest, limit)| - 1, h);
    }
  }

  /** A text of n characters needs at most (n - 1) / h + 1 messages, h being half the limit, or one
      character for a limit of one: every message but the last consumes at least h of the first
      n - 1 characters. */
  lemma PiecesAreFew(s: string, limit: nat)
    requires limit >= 1 && s != "" && Stripped(s)
    ensures 1 <= |Pieces(s, limit)| <= (|s| - 1) / Stride(limit) + 1
  {
    hide Stripped, Pieces, Stride;
    CutsConsume(s, limit);
    QuotientBounds(|Pieces(s, limit)| - 1, |s| - 1, Stride(limit));
  }

  lemma QuotientBounds(k: nat, n: nat, h: nat)
    requires h >= 1 && k * h <= n
    ensures k <= n / h
  {
    var q := n / h;
    assert n < q * h + h;
    if k >= q + 1 { ProductMonotone(q + 1, k, h); }
  }

  lemma ProductMonotone(a: nat, b: nat, h: nat)
    requires a <= b
    ensures a * h <= b * h
  {
  }

  /** Splitting any text: the messages of a blank text are the placeholder, all others carry
      exactly its printing characters. */
  lemma SplitKeepsText(text: string, limit: nat)
    requires limit >= 1
    ensures Printing(Joined(Pieces(Sent(text), limit))) == if Strip(text) == "" then Printing(EMPTY) else Printing(text)
    ensures |Sent(text)| <= limit ==> Pieces(Sent(text), limit) == [Sent(text)]
  {
    hide Strip, Printing;
    PiecesKeepPrinting(Sent(text), limit);
    StripsKeepPrinting(text);
  }
}
