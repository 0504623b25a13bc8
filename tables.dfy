/** `splitTableRow` and `isTableSeparatorLine` (SubjectDetail.tsx and ChatWidget.tsx). */
module Tables {

  import opened Strings
  import opened Emphasis

  /** `.replace(/^\|/, "").replace(/\|$/, "")`: at most one pipe removed from each end. */
  function StripOuterPipes(t: string): (r: string)
  {
    var a := if |t| > 0 && t[0] == '|' then t[1..] else t;
    if |a| > 0 && a[|a| - 1] == '|' then a[..|a| - 1] else a
  }

  /** The trimmed cells of a table line: trim it, strip one outer pipe on each side, split on the
      pipes that remain and trim each piece. There is one cell more than inner pipes. */
  function Cells(line: string): (r: seq<string>)
    ensures |r| == Count(StripOuterPipes(Trim(line)), '|') + 1
    ensures forall k :: 0 <= k < |r| ==> '|' !in r[k] && Trim(r[k]) == r[k]
  {
    var parts := Split(StripOuterPipes(Trim(line)), '|');
    SplitLength(StripOuterPipes(Trim(line)), '|');
    TrimsOfPieces(parts);
    seq(|parts|, k requires 0 <= k < |parts| => Trim(parts[k]))
  }

  lemma TrimsOfPieces(parts: seq<string>)
    requires forall k :: 0 <= k < |parts| ==> '|' !in parts[k]
    ensures forall k :: 0 <= k < |parts| ==> '|' !in Trim(parts[k]) && Trim(Trim(parts[k])) == Trim(parts[k])
  {
    forall k | 0 <= k < |parts|
      ensures '|' !in Trim(parts[k]) && Trim(Trim(parts[k])) == Trim(parts[k])
    {
      var p := parts[k];
      var a := TrimOffset(p);
      assert Trim(p) == p[a..a + |Trim(p)|];
      TrimIdempotent(p);
    }
  }

  /** Stripping the outer pipes only removes characters. */
  lemma StripChars(t: string)
    ensures CharsFrom(StripOuterPipes(t), t)
  {
    var a := if |t| > 0 && t[0] == '|' then t[1..] else t;
    var r := StripOuterPipes(t);
    forall k | 0 <= k < |r| ensures r[k] in t {
      assert r[k] == a[k];
      assert a[k] in t;
    }
  }

  /** Every cell is made of characters of its line. */
  lemma CellsChars(line: string)
    ensures forall k :: 0 <= k < |Cells(line)| ==> CharsFrom(Cells(line)[k], line)
  {
    var t := Trim(line);
    var stripped := StripOuterPipes(t);
    var parts := Split(stripped, '|');
    TrimChars(line);
    StripChars(t);
    SplitChars(stripped, '|');
    forall k | 0 <= k < |Cells(line)| ensures CharsFrom(Cells(line)[k], line) {
      var c := Cells(line)[k];
      TrimChars(parts[k]);
      forall j | 0 <= j < |c| ensures c[j] in line {
        assert c[j] in parts[k];
        var a :| 0 <= a < |parts[k]| && parts[k][a] == c[j];
        assert parts[k][a] in stripped;
        var b :| 0 <= b < |stripped| && stripped[b] == c[j];
        assert stripped[b] in t;
      }
    }
  }

  /** `splitTableRow(line)`: the cells of the line, each through the bold rewriting. Nothing is
      padded or cut to the width of another row: the width comes from this line's pipes alone. */
  function SplitTableRow(line: string): (r: seq<seq<Span>>)
    ensures |r| == Count(StripOuterPipes(Trim(line)), '|') + 1
    ensures forall k :: 0 <= k < |r| ==> Source(r[k]) == Cells(line)[k]
  {
    var cells := Cells(line);
    forall k | 0 <= k < |cells| ensures Source(Spans(cells[k])) == cells[k] {
      SpansRoundTrip(cells[k]);
    }
    seq(|cells|, k requires 0 <= k < |cells| => Spans(cells[k]))
  }

  /** `/^:?-{3,}:?$/.test(cell)`: an optional colon, at least three hyphens, an optional colon. */
  predicate IsSeparatorCell(c: string)
  {
    var a := if |c| > 0 && c[0] == ':' then 1 else 0;
    var b := if |c| > a && c[|c| - 1] == ':' then |c| - 1 else |c|;
    b >= a + 3 && forall k :: a <= k < b ==> c[k] == '-'
  }

  /** `isTableSeparatorLine(line)`: the line has cells and every one of them is a separator cell. */
  predicate IsTableSeparatorLine(line: string)
  {
    var cells := Cells(line);
    |cells| > 0 && forall k :: 0 <= k < |cells| ==> IsSeparatorCell(cells[k])
  }

  /** Since there is always at least one cell, a line is a separator line exactly when every
      one of its cells is a separator cell. */
  lemma SeparatorLineIff(line: string)
    ensures IsTableSeparatorLine(line) <==> forall k :: 0 <= k < |Cells(line)| ==> IsSeparatorCell(Cells(line)[k])
  {
  }

  /** A colon or nothing. */
  function Colon(present: bool): string
  {
    if present then ":" else ""
  }

  /** Every cell of the form `:?-{3,}:?` is accepted. */
  lemma SeparatorCellOf(lead: bool, n: nat, trail: bool)
    requires n >= 3
    ensures IsSeparatorCell(Colon(lead) + Repeat('-', n) + Colon(trail))
  {
    var c := Colon(lead) + Repeat('-', n) + Colon(trail);
    var a := |Colon(lead)|;
    assert forall k :: a <= k < a + n ==> c[k] == Repeat('-', n)[k - a];
    assert |c| > 0 && c[0] == ':' <==> lead;
    assert |c| > a && c[|c| - 1] == ':' <==> trail;
  }

  /** Every accepted cell is of that form: at least three characters, hyphens except possibly a
      colon at either end. */
  lemma SeparatorCellShape(c: string)
    requires IsSeparatorCell(c)
    ensures |c| >= 3
    ensures forall k :: 0 <= k < |c| ==> c[k] == '-' || (c[k] == ':' && (k == 0 || k == |c| - 1))
  {
  }

  /** A lone pipe leaves one empty cell, which is not a separator cell. */
  lemma LonePipeIsNoSeparator()
    ensures !IsTableSeparatorLine("|")
  {
    TrimUnspaced("|");
    assert StripOuterPipes("|") == "";
    TrimOf("", "", "");
    assert Cells("|") == [""];
    assert !IsSeparatorCell("");
    SeparatorLineIff("|");
    assert |Cells("|")| > 0 && !IsSeparatorCell(Cells("|")[0]);
  }

  /** Text without hyphens, and fewer than three hyphens, are not separator cells. */
  lemma ShortOrWordIsNoSeparatorCell()
    ensures !IsSeparatorCell("abc")
    ensures !IsSeparatorCell("--")
    ensures !IsSeparatorCell(":--:")
  {
  }

  /** `|---|:---:|` is trimmed already and loses its outer pipes. */
  lemma TypicalLineTrimmedAndStripped()
    ensures Trim("|---|:---:|") == "|---|:---:|"
    ensures StripOuterPipes("|---|:---:|") == "---|:---:"
  {
    var line := "|---|:---:|";
    TrimUnspaced(line);
    var a := line[1..];
    assert a == "---|:---:|";
    assert a[..|a| - 1] == "---|:---:";
  }

  /** What is left of it splits at its one inner pipe. */
  lemma TypicalLineSplit()
    ensures Split("---|:---:", '|') == ["---", ":---:"]
  {
    SplitWithout(":---:", '|');
    SplitAtFirst("---", '|', ":---:");
    assert "---" + ['|'] + ":---:" == "---|:---:";
  }

  /** The cells of a line whose stripped text splits into pieces that are already trimmed. */
  lemma CellsOfPieces(line: string, parts: seq<string>)
    requires Split(StripOuterPipes(Trim(line)), '|') == parts
    requires forall k :: 0 <= k < |parts| ==> Trim(parts[k]) == parts[k]
    ensures Cells(line) == parts
  {
  }

  /** A line whose cells are all separator cells is a separator line. */
  lemma SeparatorLineOfCells(line: string, cells: seq<string>)
    requires Cells(line) == cells
    requires forall k :: 0 <= k < |cells| ==> IsSeparatorCell(cells[k])
    ensures IsTableSeparatorLine(line)
  {
  }

  /** Both of its cells are separator cells. */
  lemma TypicalSeparatorCells()
    ensures IsSeparatorCell("---") && IsSeparatorCell(":---:")
  {
  }

  /** Trimming, stripping and splitting `|---|:---:|` gives its two cells. */
  lemma TypicalPieces()
    ensures Split(StripOuterPipes(Trim("|---|:---:|")), '|') == ["---", ":---:"]
  {
    TypicalLineTrimmedAndStripped();
    TypicalLineSplit();
  }

  /** Its two cells are trimmed already. */
  lemma TypicalPiecesTrimmed(parts: seq<string>)
    requires parts == ["---", ":---:"]
    ensures forall k :: 0 <= k < |parts| ==> Trim(parts[k]) == parts[k]
  {
    TrimUnspaced("---");
    TrimUnspaced(":---:");
  }

  /** The cells of `|---|:---:|` are `---` and `:---:`. */
  lemma TypicalCells()
    ensures Cells("|---|:---:|") == ["---", ":---:"]
  {
    TypicalPieces();
    TypicalPiecesTrimmed(["---", ":---:"]);
    CellsOfPieces("|---|:---:|", ["---", ":---:"]);
  }

  /** A usual separator line is accepted. */
  lemma TypicalSeparatorLine()
    ensures IsTableSeparatorLine("|---|:---:|")
  {
    TypicalCells();
    TypicalSeparatorCells();
    SeparatorLineOfCells("|---|:---:|", ["---", ":---:"]);
  }
}
