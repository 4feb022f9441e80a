/**
 * The string helpers and the fixed section emitters of the Assembler of
 * assembler.cpp.  isNumber is a predicate on text, cleanVarName a loop that
 * builds the cleaned name, proved to compute Cleaned; generateDataSection and
 * generateCodeSection append to the assembly listing held by the object.
 */
module Assembler {
  import opened Text

  /** isNumber: a non-empty run of decimal digits (::isdigit in the C
      locale). */
  predicate IsNumber(s: string) {
    |s| > 0 && forall k :: 0 <= k < |s| ==> IsDecimalDigit(s[k])
  }

  /** The empty string is not a number. */
  lemma EmptyIsNotNumber()
    ensures !IsNumber("")
  {
  }

  /** The text of an integer is a number exactly when the integer is not
      negative: the digits of a natural pass, a leading '-' fails. */
  lemma IntTextIsNumber(i: int)
    ensures IsNumber(IntToString(i)) <==> i >= 0
  {
    SignShown(i);
    if i >= 0 {
      NatToStringShape(i);
    }
  }

  /** Temporaries T<n> and labels L<n> are never taken for numbers. */
  lemma NamesAreNotNumbers(n: int)
    ensures !IsNumber(TempName(n)) && !IsNumber("L" + IntToString(n))
  {
    assert TempName(n)[0] == 'T';
    assert ("L" + IntToString(n))[0] == 'L';
  }

  /** Numbers join: two numbers side by side make a number, and a number
      splits into numbers at any inner point. */
  lemma NumberConcat(a: string, b: string)
    requires |a| > 0 && |b| > 0
    ensures IsNumber(a + b) <==> IsNumber(a) && IsNumber(b)
  {
    if IsNumber(a + b) {
      assert forall k :: 0 <= k < |a| ==> a[k] == (a + b)[k];
      assert forall k :: 0 <= k < |b| ==> b[k] == (a + b)[|a| + k];
    }
  }

  /** The characters cleanVarName removes. */
  predicate IsSeparator(c: char) {
    c == ',' || c == ')' || c == ' '
  }

  /** The text of cleanVarName: the characters of s that are not separators,
      in their order. */
  function Cleaned(s: string): (r: string)
    ensures |r| <= |s|
  {
    if s == [] then ""
    else Cleaned(s[..|s| - 1]) + (if IsSeparator(s[|s| - 1]) then "" else [s[|s| - 1]])
  }

  /** Cleaning works piecewise. */
  lemma {:induction false} CleanedAppend(a: string, b: string)
    ensures Cleaned(a + b) == Cleaned(a) + Cleaned(b)
    decreases |b|
  {
    if b == [] {
      assert a + b == a;
    } else {
      var b' := b[..|b| - 1];
      assert (a + b)[..|a + b| - 1] == a + b';
      assert (a + b)[|a + b| - 1] == b[|b| - 1];
      CleanedAppend(a, b');
    }
  }

  /** The result holds no separator. */
  lemma {:induction false} CleanedHasNoSeparator(s: string)
    ensures forall k :: 0 <= k < |Cleaned(s)| ==> !IsSeparator(Cleaned(s)[k])
  {
    if s != [] {
      CleanedHasNoSeparator(s[..|s| - 1]);
    }
  }

  /** Every character that is not a separator is kept as often as it occurs,
      and every separator is dropped. */
  lemma {:induction false} CleanedCounts(s: string, c: char)
    ensures multiset(Cleaned(s))[c] == if IsSeparator(c) then 0 else multiset(s)[c]
  {
    if s != [] {
      CleanedCounts(s[..|s| - 1], c);
      assert s == s[..|s| - 1] + [s[|s| - 1]];
    }
  }

  /** A string is left as it is exactly when it holds no separator. */
  lemma {:induction false} CleanedUnchanged(s: string)
    ensures Cleaned(s) == s <==> forall k :: 0 <= k < |s| ==> !IsSeparator(s[k])
  {
    if s != [] {
      var s' := s[..|s| - 1];
      CleanedUnchanged(s');
      if forall k :: 0 <= k < |s| ==> !IsSeparator(s[k]) {
        assert forall k :: 0 <= k < |s'| ==> s'[k] == s[k];
        assert s == s' + [s[|s| - 1]];
      }
    }
  }

  /** Cleaning twice is cleaning once. */
  lemma CleanedIdempotent(s: string)
    ensures Cleaned(Cleaned(s)) == Cleaned(s)
  {
    CleanedHasNoSeparator(s);
    CleanedUnchanged(Cleaned(s));
  }

  /** A number comes through cleaning unchanged. */
  lemma NumberIsClean(s: string)
    requires IsNumber(s)
    ensures Cleaned(s) == s
  {
    CleanedUnchanged(s);
  }

  /** The declaration generateDataSection writes for one variable. */
  function DataLine(v: string): string {
    "    " + v + "           DW"
  }

  /** The variable a declaration line declares: the text between the indent
      and the "DW" column. */
  function DeclaredName(line: string): string {
    if |line| >= 17 then line[4..|line| - 13] else ""
  }

  /** The declarations of the variables, in order. */
  function DataLines(vs: seq<string>): (r: seq<string>)
    ensures |r| == |vs|
  {
    if vs == [] then [] else DataLines(vs[..|vs| - 1]) + [DataLine(vs[|vs| - 1])]
  }

  /** The data section: its header, one declaration per variable, its end. */
  function DataSection(vs: seq<string>): seq<string> {
    ["data segment"] + DataLines(vs) + ["data ends"]
  }

  /** Each declaration gives back its variable. */
  lemma DeclaredNameOfLine(v: string)
    ensures DeclaredName(DataLine(v)) == v
  {
    assert DataLine(v)[4..|DataLine(v)| - 13] == v;
  }

  /** Declaration k of the data lines declares variable k. */
  lemma {:induction false} DataLinesAt(vs: seq<string>, k: int)
    requires 0 <= k < |vs|
    ensures DataLines(vs)[k] == DataLine(vs[k])
  {
    if k < |vs| - 1 {
      DataLinesAt(vs[..|vs| - 1], k);
    }
  }

  /** The data section has |vs| + 2 lines, starts with "data segment", ends
      with "data ends", and its line k + 1 declares variable k, which reads
      back from it. */
  lemma DataSectionShape(vs: seq<string>)
    ensures var d := DataSection(vs);
      |d| == |vs| + 2 && d[0] == "data segment" && d[|d| - 1] == "data ends" &&
      forall k :: 0 <= k < |vs| ==> d[k + 1] == DataLine(vs[k]) && DeclaredName(d[k + 1]) == vs[k]
  {
    var d := DataSection(vs);
    forall k | 0 <= k < |vs|
      ensures d[k + 1] == DataLine(vs[k]) && DeclaredName(d[k + 1]) == vs[k]
    {
      DataLinesAt(vs, k);
      DeclaredNameOfLine(vs[k]);
    }
  }

  /** The eleven lines generateCodeSection writes: the segment header, the
      far procedure, the assume directive, the start label and the set-up of
      DS through BX. */
  function CodeSection(): seq<string> {
    ["code segment", "main proc far", "    assume cs:code,ds:data", "", "start:",
     "    push ds", "    sub bx,bx", "push bx", "", "    mov bx,data", "    mov ds,bx"]
  }

  /** The listing under construction and the variables it declares. */
  class Assembler {
    var asmCode: seq<string>
    var variables: seq<string>

    /** Both vectors start empty. */
    constructor()
      ensures asmCode == [] && variables == []
    {
      asmCode := [];
      variables := [];
    }

    /** cleanVarName: copies the characters that are not separators. */
    method CleanVarName(v: string) returns (cleaned: string)
      ensures cleaned == Cleaned(v)
    {
      cleaned := "";
      var i := 0;
      while i < |v|
        invariant 0 <= i <= |v|
        invariant cleaned == Cleaned(v[..i])
      {
        assert v[..i + 1][..i] == v[..i];
        var c := v[i];
        if c != ',' && c != ')' && c != ' ' {
          cleaned := cleaned + [c];
        }
        i := i + 1;
      }
      assert v[..i] == v;
    }

    /** generateDataSection: appends the data section for the variables and
        changes nothing else. */
    method GenerateDataSection()
      modifies this
      ensures asmCode == old(asmCode) + DataSection(variables)
      ensures variables == old(variables)
    {
      asmCode := asmCode + ["data segment"];
      var i := 0;
      while i < |variables|
        invariant 0 <= i <= |variables|
        invariant asmCode == old(asmCode) + ["data segment"] + DataLines(variables[..i])
        invariant variables == old(variables)
      {
        assert variables[..i + 1][..i] == variables[..i];
        asmCode := asmCode + ["    " + variables[i] + "           DW"];
        i := i + 1;
      }
      assert variables[..i] == variables;
      asmCode := asmCode + ["data ends"];
    }

    /** generateCodeSection: appends the eleven fixed lines and changes
        nothing else. */
    method GenerateCodeSection()
      modifies this
      ensures asmCode == old(asmCode) + CodeSection()
      ensures variables == old(variables)
    {
      asmCode := asmCode + ["code segment"];
      asmCode := asmCode + ["main proc far"];
      asmCode := asmCode + ["    assume cs:code,ds:data"];
      asmCode := asmCode + [""];
      asmCode := asmCode + ["start:"];
      asmCode := asmCode + ["    push ds"];
      asmCode := asmCode + ["    sub bx,bx"];
      asmCode := asmCode + ["push bx"];
      asmCode := asmCode + [""];
      asmCode := asmCode + ["    mov bx,data"];
      asmCode := asmCode + ["    mov ds,bx"];
    }
  }
}
