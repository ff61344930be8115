/**
 * The ledger of already duplicated asset ids, as text: the file "images" in
 * the documents directory holds each id followed by a newline, appended batch
 * by batch, and is read back by splitting on newlines.
 */
module Ledger {

  /** No id contains the separator. */
  predicate NoNewlines(ids: seq<string>)
  {
    forall i :: 0 <= i < |ids| ==> '\n' !in ids[i]
  }

  /** The text `handleDuplicationProgress` appends for a batch: each id followed by "\n". */
  function Encode(ids: seq<string>): string
  {
    if ids == [] then "" else ids[0] + "\n" + Encode(ids[1..])
  }

  /** `components(separatedBy: "\n")`: the pieces between newlines, empty ones included. */
  function Split(text: string): (pieces: seq<string>)
    ensures |pieces| >= 1
    ensures '\n' in text ==> |pieces| >= 2
  {
    if text == [] then [""]
    else if text[0] == '\n' then [""] + Split(text[1..])
    else
      var rest := Split(text[1..]);
      [[text[0]] + rest[0]] + rest[1..]
  }

  /** No piece holds a newline. */
  lemma {:induction false} SplitPieces(text: string)
    ensures NoNewlines(Split(text))
  {
    if text != [] {
      SplitPieces(text[1..]);
      if text[0] != '\n' {
        var rest := Split(text[1..]);
        assert '\n' !in [text[0]] + rest[0];
        assert Split(text)[1..] == rest[1..];
      }
    }
  }

  /** The pieces put back together with a newline between each two. */
  function Join(pieces: seq<string>): string
    requires |pieces| >= 1
  {
    if |pieces| == 1 then pieces[0] else pieces[0] + "\n" + Join(pieces[1..])
  }

  /** `readAlreadyDuplicatedImages`: the ids a ledger text yields. */
  function Decode(text: string): set<string>
  {
    set p | p in Split(text)
  }

  /** The distinct ids of a batch. */
  function IdSet(ids: seq<string>): set<string>
  {
    set p | p in ids
  }

  /** Splitting loses nothing: joining the pieces gives the text back. */
  lemma {:induction false} JoinSplit(text: string)
    ensures Join(Split(text)) == text
  {
    if text != [] {
      var t := text[1..];
      assert text == [text[0]] + t;
      JoinSplit(t);
      SplitCons(text[0], t);
      var rest := Split(t);
      if text[0] == '\n' {
        assert ([""] + rest)[1..] == rest;
        assert Join(Split(text)) == "" + "\n" + Join(rest);
      } else if |rest| > 1 {
        assert ([[text[0]] + rest[0]] + rest[1..])[1..] == rest[1..];
        assert Join(rest) == rest[0] + "\n" + Join(rest[1..]);
      }
    }
  }

  /** A text without newline is a single piece. */
  lemma {:induction false} SplitSingle(x: string)
    requires '\n' !in x
    ensures Split(x) == [x]
  {
    if x != [] {
      assert '\n' !in x[1..] by {
        forall i | 0 <= i < |x[1..]|
          ensures x[1..][i] != '\n'
        {
          assert x[1..][i] == x[i + 1];
        }
      }
      SplitSingle(x[1..]);
      assert [x[0]] + x[1..] == x;
    }
  }

  /** A piece without newline, a newline, then the rest. */
  lemma {:induction false} SplitPiece(x: string, y: string)
    requires '\n' !in x
    ensures Split(x + "\n" + y) == [x] + Split(y)
  {
    if x == [] {
      assert x + "\n" + y == "\n" + y;
      assert ("\n" + y)[1..] == y;
    } else {
      SplitPiece(x[1..], y);
      var text := x + "\n" + y;
      assert text[0] == x[0] && text[1..] == x[1..] + "\n" + y;
      var rest := Split(text[1..]);
      assert rest[0] == x[1..] && rest[1..] == Split(y);
      assert [x[0]] + x[1..] == x;
    }
  }

  /** Joining pieces without newlines and splitting again gives the same pieces. */
  lemma {:induction false} SplitJoin(pieces: seq<string>)
    requires |pieces| >= 1 && NoNewlines(pieces)
    ensures Split(Join(pieces)) == pieces
  {
    if |pieces| == 1 {
      SplitSingle(pieces[0]);
    } else {
      SplitJoin(pieces[1..]);
      SplitPiece(pieces[0], Join(pieces[1..]));
    }
  }

  /** The encoding splits into the ids followed by one empty piece. */
  lemma {:induction false} SplitEncode(ids: seq<string>)
    requires NoNewlines(ids)
    ensures Split(Encode(ids)) == ids + [""]
  {
    if ids != [] {
      SplitEncode(ids[1..]);
      SplitPiece(ids[0], Encode(ids[1..]));
    }
  }

  /** Reading back what was written yields the ids and the empty id of the trailing newline. */
  lemma DecodeEncode(ids: seq<string>)
    requires NoNewlines(ids)
    ensures Decode(Encode(ids)) == IdSet(ids) + {""}
  {
    SplitEncode(ids);
    assert forall p :: p in ids + [""] <==> p in ids || p == "";
  }

  /** Appending two batches writes the same text as appending their concatenation. */
  lemma {:induction false} EncodeConcat(a: seq<string>, b: seq<string>)
    ensures Encode(a + b) == Encode(a) + Encode(b)
  {
    if a != [] {
      EncodeConcat(a[1..], b);
      assert (a + b)[0] == a[0] && (a + b)[1..] == a[1..] + b;
      calc {
        Encode(a + b);
        a[0] + "\n" + Encode(a[1..] + b);
        a[0] + "\n" + (Encode(a[1..]) + Encode(b));
        (a[0] + "\n" + Encode(a[1..])) + Encode(b);
        Encode(a) + Encode(b);
      }
    } else {
      assert a + b == b;
    }
  }

  /** Splitting a text that starts with one character, by that character. */
  lemma SplitCons(c: char, t: string)
    ensures c == '\n' ==> Split([c] + t) == [""] + Split(t)
    ensures c != '\n' ==> Split([c] + t) == [[c] + Split(t)[0]] + Split(t)[1..]
  {
    assert ([c] + t)[0] == c && ([c] + t)[1..] == t;
  }

  /** Text that ends a line: splitting it and more text keeps its complete lines. */
  lemma {:induction false} SplitAfterNewline(x: string, y: string)
    requires x != [] && x[|x| - 1] == '\n'
    ensures Split(x + y) == Split(x)[..|Split(x)| - 1] + Split(y)
  {
    var x' := x[1..];
    assert x == [x[0]] + x';
    assert x + y == [x[0]] + (x' + y);
    SplitCons(x[0], x');
    SplitCons(x[0], x' + y);
    if |x| == 1 {
      assert x' + y == y;
    } else {
      SplitAfterNewline(x', y);
      var p' := Split(x');
      var n' := |p'|;
      if x[0] != '\n' {
        assert '\n' in x' by { assert x'[|x'| - 1] == '\n'; }
        SplitTail(p', Split(y), x[0]);
      } else {
        assert ([""] + p')[..n'] == [""] + p'[..n' - 1];
      }
    }
  }

  /** The sequence step of `SplitAfterNewline` when the first character is not a newline. */
  lemma SplitTail(p: seq<string>, q: seq<string>, c: char)
    requires |p| >= 2
    ensures var r := p[..|p| - 1] + q;
            [[c] + r[0]] + r[1..] == ([[c] + p[0]] + p[1..])[..|p| - 1] + q
  {
    var r := p[..|p| - 1] + q;
    assert r[0] == p[0] && r[1..] == p[1..|p| - 1] + q;
    assert ([[c] + p[0]] + p[1..])[..|p| - 1] == [[c] + p[0]] + p[1..|p| - 1];
  }

  /**
   * Appending a batch to a ledger whose text ends a line (or is empty) adds
   * exactly the batch's ids to the set read back.
   */
  lemma AppendBatch(text: string, ids: seq<string>)
    requires text == [] || text[|text| - 1] == '\n'
    requires NoNewlines(ids)
    ensures Decode(text + Encode(ids)) == Decode(text) + IdSet(ids)
  {
    DecodeEncode(ids);
    if text == [] {
      assert text + Encode(ids) == Encode(ids);
      assert Decode(text) == {""};
    } else {
      var pieces := Split(text);
      var n := |pieces|;
      SplitAfterNewline(text, Encode(ids));
      SplitAfterNewline(text, "");
      assert text + "" == text;
      assert pieces == pieces[..n - 1] + [""];
      SplitEncode(ids);
      assert Split(text + Encode(ids)) == pieces[..n - 1] + (ids + [""]);
      assert forall p :: p in pieces <==> p in pieces[..n - 1] || p == "";
      assert forall p :: p in pieces[..n - 1] + (ids + [""]) <==> p in pieces[..n - 1] || p in ids || p == "";
    }
  }

  /** Writing the same batch twice reads back the same set as writing it once. */
  lemma ReappendIsIdempotent(ids: seq<string>)
    requires NoNewlines(ids)
    ensures Decode(Encode(ids) + Encode(ids)) == Decode(Encode(ids))
  {
    var text := Encode(ids);
    if ids != [] {
      assert text[|text| - 1] == '\n' by {
        EncodeConcat(ids[..|ids| - 1], [ids[|ids| - 1]]);
        assert ids[..|ids| - 1] + [ids[|ids| - 1]] == ids;
      }
    }
    AppendBatch(text, ids);
    DecodeEncode(ids);
  }
}
