/** Project identifier normalisation and comma-separated tag cleaning, shared by
    the command-line tool and the app package. */
module Ids {
  import opened Text

  /** The characters a normalised identifier may hold: A-Z, 0-9 and '-'. */
  predicate IsIdChar(c: char) {
    ('A' <= c <= 'Z') || ('0' <= c <= '9') || c == '-'
  }

  /** Removes every character outside A-Z, 0-9 and '-' (the regular expression
      [^A-Z0-9\-] replaced by nothing). */
  function KeepIdChars(s: string): (r: string)
    ensures |r| <= |s|
    ensures forall i :: 0 <= i < |r| ==> IsIdChar(r[i])
  {
    if s == [] then []
    else if IsIdChar(s[0]) then [s[0]] + KeepIdChars(s[1..])
    else KeepIdChars(s[1..])
  }

  /** Upper-cases, then keeps only A-Z, 0-9 and '-'. Never fails, possibly
      returning the empty string. */
  function ValidateID(id: string): (r: string)
    ensures |r| <= |id|
    ensures forall i :: 0 <= i < |r| ==> IsIdChar(r[i])
  {
    KeepIdChars(ToUpper(id))
  }

  lemma {:induction false} KeepIdCharsFixpoint(s: string)
    ensures KeepIdChars(s) == s <==> forall i :: 0 <= i < |s| ==> IsIdChar(s[i])
  {
    if s != [] {
      KeepIdCharsFixpoint(s[1..]);
      if !IsIdChar(s[0]) {
        assert |KeepIdChars(s)| < |s|;
      } else {
        assert forall i :: 1 <= i < |s| ==> s[1..][i - 1] == s[i];
      }
    }
  }

  lemma UpperIdChars(s: string)
    requires forall i :: 0 <= i < |s| ==> IsIdChar(s[i])
    ensures ToUpper(s) == s
  {
  }

  /** A string is its own normalised identifier exactly when it already consists of
      A-Z, 0-9 and '-' only. */
  lemma ValidateIDFixpoint(s: string)
    ensures ValidateID(s) == s <==> forall i :: 0 <= i < |s| ==> IsIdChar(s[i])
  {
    if forall i :: 0 <= i < |s| ==> IsIdChar(s[i]) {
      UpperIdChars(s);
      KeepIdCharsFixpoint(s);
    }
  }

  /** Normalising twice gives the same identifier as normalising once. */
  lemma ValidateIDIdempotent(s: string)
    ensures ValidateID(ValidateID(s)) == ValidateID(s)
  {
    ValidateIDFixpoint(ValidateID(s));
  }

  /** Go's strings.Split(tags, ","), each piece trimmed, empty pieces dropped: the
      tags that cleanTags and CleanTags return, in input order. */
  function TagList(tags: string): seq<string>
  {
    KeepTrimmedNonEmpty(Split(tags, ','))
  }

  /** The trimmed pieces that are not empty, in order. */
  function KeepTrimmedNonEmpty(pieces: seq<string>): (r: seq<string>)
    ensures |r| <= |pieces|
  {
    if pieces == [] then []
    else
      var t := TrimSpace(pieces[|pieces| - 1]);
      KeepTrimmedNonEmpty(pieces[..|pieces| - 1]) + (if t != [] then [t] else [])
  }

  /** A well-formed tag: non-empty, free of commas and already trimmed. */
  predicate IsCleanTag(t: string) {
    t != [] && ',' !in t && TrimSpace(t) == t
  }

  /** Every cleaned tag is non-empty, free of commas and already trimmed. */
  lemma TagListClean(tags: string)
    ensures forall t :: t in TagList(tags) ==> IsCleanTag(t)
  {
    SplitPieces(tags, ',');
    KeptPiecesClean(Split(tags, ','));
  }

  lemma TrimmedPieceClean(piece: string)
    requires ',' !in piece && TrimSpace(piece) != []
    ensures IsCleanTag(TrimSpace(piece))
  {
    var t := TrimSpace(piece);
    TrimSpaceIdempotent(piece);
    TrimSpaceShape(piece);
    var k :| TrimmedAt(piece, t, k);
    assert forall j :: 0 <= j < |t| ==> t[j] == piece[k + j];
  }

  lemma {:induction false} KeptPiecesClean(pieces: seq<string>)
    requires forall i :: 0 <= i < |pieces| ==> ',' !in pieces[i]
    ensures forall t :: t in KeepTrimmedNonEmpty(pieces) ==> IsCleanTag(t)
  {
    if pieces != [] {
      var last := pieces[|pieces| - 1];
      KeptPiecesClean(pieces[..|pieces| - 1]);
      if TrimSpace(last) != [] {
        TrimmedPieceClean(last);
      }
    }
  }

  /** A piece that has a non-space character yields a tag: the cleaned list keeps
      every real tag of the input. */
  lemma {:induction false} KeepsRealPieces(pieces: seq<string>, i: nat, j: nat)
    requires i < |pieces| && j < |pieces[i]| && !IsSpace(pieces[i][j])
    ensures TrimSpace(pieces[i]) in KeepTrimmedNonEmpty(pieces)
  {
    var n := |pieces| - 1;
    if i == n {
      TrimSpaceNonEmpty(pieces[i], j);
    } else {
      KeepsRealPieces(pieces[..n], i, j);
    }
  }

  /** The identifier "cp 12!01" normalises to "CP1201": letters are upper-cased,
      the space and the exclamation mark are dropped. */
  lemma ValidateIDExample()
    ensures ValidateID("cp 12!01") == "CP1201"
  {
    UpperExample();
    KeepExample();
  }

  /** The example upper-cased. */
  lemma UpperExample()
    ensures ToUpper("cp 12!01") == "CP 12!01"
  {
  }

  /** The example's upper case with the space and '!' dropped. */
  lemma KeepExample()
    ensures KeepIdChars("CP 12!01") == "CP1201"
  {
    var head, tail := "CP 1", "2!01";
    assert head + tail == "CP 12!01";
    KeepIdCharsAppend(head, tail);
    assert KeepIdChars(head) == "CP1";
    assert KeepIdChars(tail) == "201";
  }

  /** The loop of cleanTags (main.go) and CleanTags (app/project.go). */
  method CleanTags(tags: string) returns (clean: seq<string>)
    ensures clean == TagList(tags)
  {
    var pieces := Split(tags, ',');
    clean := [];
    var i := 0;
    while i < |pieces|
      invariant 0 <= i <= |pieces|
      invariant clean == KeepTrimmedNonEmpty(pieces[..i])
    {
      assert pieces[..i + 1][..i] == pieces[..i];
      var t := TrimSpace(pieces[i]);
      if t != "" {
        clean := clean + [t];
      }
      i := i + 1;
    }
    assert pieces[..i] == pieces;
  }

  /** The empty string gives no tags. */
  lemma EmptyTags()
    ensures TagList("") == []
  {
    assert Split("", ',') == [""];
  }

  /** KeepIdChars works character by character. */
  lemma {:induction false} KeepIdCharsAppend(a: string, b: string)
    ensures KeepIdChars(a + b) == KeepIdChars(a) + KeepIdChars(b)
  {
    if a != [] {
      assert (a + b)[0] == a[0];
      assert (a + b)[1..] == a[1..] + b;
      KeepIdCharsAppend(a[1..], b);
    } else {
      assert a + b == b;
    }
  }

  /** ValidateID works character by character: the identifier of a
      concatenation is the concatenation of the identifiers. */
  lemma ValidateIDAppend(a: string, b: string)
    ensures ValidateID(a + b) == ValidateID(a) + ValidateID(b)
  {
    ToUpperAppend(a, b);
    KeepIdCharsAppend(ToUpper(a), ToUpper(b));
  }

  /** One character normalises to its upper case when that is A-Z, 0-9 or '-',
      and to nothing otherwise; the empty identifier stays empty. */
  lemma ValidateIDChar(c: char)
    ensures ValidateID([c]) == if IsIdChar(UpperChar(c)) then [UpperChar(c)] else []
    ensures ValidateID("") == ""
  {
    assert ToUpper([c]) == [UpperChar(c)];
    assert [UpperChar(c)][1..] == [];
  }
}
