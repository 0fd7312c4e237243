/**
  Dash-to-camel-case conversion used for generated class names
  (`_convertDashesToCamelCase` and `_capitalize` in pyblitz/common).
*/
module CamelCase {
  import opened Wrappers
  import opened Strs

  /**
    `_capitalize(string)`: the first character upper-cased, the rest kept.
    `string[0]` on an empty string raises IndexError.
  */
  function Capitalize(s: string): (r: Result<string>)
    ensures r.Err? <==> s == []
    ensures r.Err? ==> r.error == IndexError
    ensures r.Ok? ==> |r.value| == |s| && r.value[0] == UpperChar(s[0])
    ensures r.Ok? ==> forall i :: 1 <= i < |s| ==> r.value[i] == s[i]
  {
    if s == [] then Err(IndexError) else Ok([UpperChar(s[0])] + s[1..])
  }

  /** Capitalising twice is capitalising once. */
  lemma CapitalizeIdempotent(s: string)
    requires s != []
    ensures Capitalize(Capitalize(s).value) == Capitalize(s)
  {
    UpperCharIdempotent(s[0]);
    assert [UpperChar(s[0])] + s[1..] == [UpperChar(UpperChar(s[0]))] + ([UpperChar(s[0])] + s[1..])[1..];
  }

  /** `_capitalize` applied to each piece in order, stopping at the first that fails. */
  function CapitalizeAll(pieces: seq<string>): Result<seq<string>>
    decreases |pieces|
  {
    if pieces == [] then Ok([])
    else
      var first :- Capitalize(pieces[0]);
      var rest :- CapitalizeAll(pieces[1..]);
      Ok([first] + rest)
  }

  /** `_convertDashesToCamelCase(string)` */
  function ConvertDashesToCamelCase(s: string): Result<string> {
    var pieces := Split(s, '-');
    var capitalized :- CapitalizeAll(pieces[1..]);
    Ok(pieces[0] + Concat(capitalized))
  }

  /** Some piece is empty. */
  ghost predicate HasEmptyPiece(pieces: seq<string>) {
    exists i :: 0 <= i < |pieces| && pieces[i] == []
  }

  /** Capitalising every piece fails exactly when one of them is empty; otherwise it keeps each piece's length and rest. */
  lemma {:induction false} CapitalizeAllSpec(pieces: seq<string>)
    ensures CapitalizeAll(pieces).Err? <==> HasEmptyPiece(pieces)
    ensures CapitalizeAll(pieces).Err? ==> CapitalizeAll(pieces).error == IndexError
    ensures CapitalizeAll(pieces).Ok? ==>
      var caps := CapitalizeAll(pieces).value;
      && |caps| == |pieces|
      && forall i :: 0 <= i < |pieces| ==> caps[i] == Capitalize(pieces[i]).value
    decreases |pieces|
  {
    if pieces != [] {
      CapitalizeAllSpec(pieces[1..]);
      if HasEmptyPiece(pieces[1..]) {
        var i :| 0 <= i < |pieces[1..]| && pieces[1..][i] == [];
        assert pieces[i + 1] == [];
      }
      if HasEmptyPiece(pieces) && pieces[0] != [] {
        var i :| 0 <= i < |pieces| && pieces[i] == [];
        assert pieces[1..][i - 1] == [];
      }
    }
  }

  /** The conversion fails (IndexError) exactly when a piece after a dash is empty. */
  lemma ConvertFailsIffEmptyPiece(s: string)
    ensures ConvertDashesToCamelCase(s).Err? <==> HasEmptyPiece(Split(s, '-')[1..])
    ensures ConvertDashesToCamelCase(s).Err? ==> ConvertDashesToCamelCase(s).error == IndexError
  {
    CapitalizeAllSpec(Split(s, '-')[1..]);
  }

  /** A string containing no dash is returned unchanged. */
  lemma NoDashUnchanged(s: string)
    requires '-' !in s
    ensures ConvertDashesToCamelCase(s) == Ok(s)
  {
    SplitNoSep(s, '-');
    assert Split(s, '-')[1..] == [];
    assert CapitalizeAll([]) == Ok([]);
    assert s + Concat([]) == s;
  }

  /** The converted pieces: the first one as is, each later one capitalised. */
  lemma {:induction false} ConvertOfJoin(pieces: seq<string>)
    requires |pieces| >= 1
    requires forall i :: 0 <= i < |pieces| ==> '-' !in pieces[i]
    requires forall i :: 1 <= i < |pieces| ==> pieces[i] != []
    ensures CapitalizeAll(pieces[1..]).Ok?
    ensures ConvertDashesToCamelCase(Join(pieces, "-")) == Ok(pieces[0] + Concat(CapitalizeAll(pieces[1..]).value))
  {
    SplitJoin(pieces, '-');
    CapitalizeAllSpec(pieces[1..]);
    assert forall i :: 0 <= i < |pieces[1..]| ==> pieces[1..][i] == pieces[i + 1];
    assert !HasEmptyPiece(pieces[1..]);
  }

  /** The capitalised pieces of a dash-free list contain no dash. */
  lemma {:induction false} CapitalizeAllNoDash(pieces: seq<string>)
    requires forall i :: 0 <= i < |pieces| ==> '-' !in pieces[i]
    requires CapitalizeAll(pieces).Ok?
    ensures '-' !in Concat(CapitalizeAll(pieces).value)
    ensures |Concat(CapitalizeAll(pieces).value)| == TotalLength(pieces)
    decreases |pieces|
  {
    if pieces != [] {
      var c := Capitalize(pieces[0]).value;
      UpperCharIdempotent(pieces[0][0]);
      assert pieces[0][0] in pieces[0];
      assert forall i :: 1 <= i < |c| ==> c[i] == pieces[0][i] && pieces[0][i] in pieces[0];
      assert forall i :: 0 <= i < |c| ==> c[i] != '-';
      CapitalizeAllNoDash(pieces[1..]);
      assert CapitalizeAll(pieces).value == [c] + CapitalizeAll(pieces[1..]).value;
    }
  }

  /** The result contains no dash, and its length is the input's minus its dashes. */
  lemma ConvertResultShape(s: string)
    requires ConvertDashesToCamelCase(s).Ok?
    ensures '-' !in ConvertDashesToCamelCase(s).value
    ensures |ConvertDashesToCamelCase(s).value| == |s| - Count(s, '-')
  {
    var pieces := Split(s, '-');
    CapitalizeAllNoDash(pieces[1..]);
    SplitTotalLength(s, '-');
    assert TotalLength(pieces) == |pieces[0]| + TotalLength(pieces[1..]);
  }

  /** Converting a converted name changes nothing. */
  lemma ConvertIdempotent(s: string)
    requires ConvertDashesToCamelCase(s).Ok?
    ensures ConvertDashesToCamelCase(ConvertDashesToCamelCase(s).value) == ConvertDashesToCamelCase(s)
  {
    ConvertResultShape(s);
    NoDashUnchanged(ConvertDashesToCamelCase(s).value);
  }

  /** Two dashes in a row leave an empty piece, so the conversion fails. */
  lemma DoubleDashFails(a: string, b: string)
    ensures ConvertDashesToCamelCase(a + "--" + b) == Err(IndexError)
  {
    var s := a + "--" + b;
    assert s == a + ['-'] + (['-'] + b);
    assert ['-'] + b == [] + ['-'] + b;
    SplitAtSep(a, ['-'] + b, '-');
    SplitAtSep([], b, '-');
    var pieces := Split(s, '-');
    assert pieces[|Split(a, '-')|] == [];
    assert pieces[1..][|Split(a, '-')| - 1] == [];
    ConvertFailsIffEmptyPiece(s);
  }

  /** A trailing dash leaves an empty last piece, so the conversion fails. */
  lemma TrailingDashFails(a: string)
    ensures ConvertDashesToCamelCase(a + "-") == Err(IndexError)
  {
    var s := a + "-";
    assert s == a + ['-'] + [];
    SplitAtSep(a, [], '-');
    var pieces := Split(s, '-');
    assert pieces[|Split(a, '-')|] == [];
    assert pieces[1..][|Split(a, '-')| - 1] == [];
    ConvertFailsIffEmptyPiece(s);
  }
}
