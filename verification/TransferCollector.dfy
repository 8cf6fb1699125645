/** update_parts and write_on_file on the server's own tables
    (system_call/server.c), against the step the transfer model takes. */
module TransferCollector {
  import opened FileParts
  import opened Transfer
  import opened TransferInv
  import opened TransferLocal

  /** write_on_file: the four parts in turn, each under its heading. */
  method WriteOnFile(row: seq<Cell>) returns (text: string)
    requires RowFull(row)
    ensures text == RowText(row)
  {
    text := "";
    for i := 0 to PARTS
      invariant text == TextUpTo(row, i)
    {
      var m := row[i].m;
      text := text + Heading(i, m.filename, m.pid) + "\n";
      text := text + CText(m.text) + "\n";
      if i != 3 { text := text + "\n"; }
      SectionSteps(row, i);
    }
    WholeText(row);
  }

  function TextUpTo(row: seq<Cell>, n: nat): string
    requires RowFull(row) && n <= PARTS
  {
    if n == 0 then "" else TextUpTo(row, n - 1) + PartText(n - 1, row[n - 1].m.filename, row[n - 1].m.pid,
      row[n - 1].m.text)
  }

  lemma SectionSteps(row: seq<Cell>, i: nat)
    requires RowFull(row) && i < PARTS
    ensures var m := row[i].m;
      TextUpTo(row, i + 1) ==
      TextUpTo(row, i) + Heading(i, m.filename, m.pid) + "\n" + CText(m.text) + "\n" + if i != 3 then "\n" else ""
  {
    hide Heading; hide CText;
    var m := row[i].m;
    Associate(TextUpTo(row, i), Heading(i, m.filename, m.pid), "\n", CText(m.text), "\n", if i != 3 then "\n" else "");
  }

  lemma Associate(a: string, b: string, c: string, d: string, e: string, f: string)
    ensures a + b + c + d + e + f == a + (b + c + d + e + f)
  {
  }

  lemma WholeText(row: seq<Cell>)
    requires RowFull(row)
    ensures TextUpTo(row, PARTS) == RowText(row)
  {
    hide PartText;
    var s0 := PartText(0, row[0].m.filename, row[0].m.pid, row[0].m.text);
    assert TextUpTo(row, 1) == "" + s0 == s0;
    assert TextUpTo(row, 2) == TextUpTo(row, 1) + PartText(1, row[1].m.filename, row[1].m.pid, row[1].m.text);
    assert TextUpTo(row, 3) == TextUpTo(row, 2) + PartText(2, row[2].m.filename, row[2].m.pid, row[2].m.text);
  }

  /** files_parts, contatori and the output files of one call of ipcs_read. */
  class Collector {
    const parts: array<seq<Cell>>
    const counters: array<nat>
    var log: seq<(nat, string)>

    predicate Valid()
      reads this, parts
    {
      parts.Length == counters.Length && forall i :: 0 <= i < parts.Length ==> |parts[i]| == PARTS
    }

    function View(): Books
      reads this, parts, counters
    {
      Books(parts[..], counters[..], log)
    }

    constructor (n: nat)
      ensures Valid() && View() == NoBooks(n) && fresh(parts) && fresh(counters)
    {
      parts := new seq<Cell>[n](_ => [Empty, Empty, Empty, Empty]);
      counters := new nat[n](_ => 0);
      log := [];
    }

    method FreeParts(row: nat)
      requires row < parts.Length && |parts[row]| == PARTS
      modifies parts
      ensures parts[..] == old(parts[..])[row := [Freed, Freed, Freed, Freed]]
    {
      for i := 0 to PARTS
        invariant |parts[row]| == PARTS && forall k :: 0 <= k < i ==> parts[row][k] == Freed
        invariant parts[..] == old(parts[..])[row := parts[row]]
      {
        parts[row] := parts[row][i := Freed];
      }
      assert parts[row] == [Freed, Freed, Freed, Freed];
    }

    /** The fourth part of a file must find the other three: that is what the
        invariant of the transfer gives at every call. */
    method UpdateParts(m: Message, ipc: nat)
      requires Valid() && m.index < parts.Length && ipc < PARTS
      requires counters[m.index] == 3 ==> RowFull(parts[m.index][ipc := Full(m)])
      modifies this, parts, counters
      ensures Valid() && View() == Update(old(View()), m, ipc)
    {
      hide RowText; hide RowFull;
      var row := m.index;
      parts[row] := parts[row][ipc := Full(m)];
      counters[row] := counters[row] + 1;
      if counters[row] == 4 {
        var text := WriteOnFile(parts[row]);
        log := log + [(row, text)];
        FreeParts(row);
      }
      assert parts[..] == old(parts[..])[row := parts[row]];
    }
  }

  /** What UpdateParts asks of its caller holds whenever the cell is empty. */
  lemma FourthPartFindsThree(jobs: seq<Job>, b: Books, i: nat, c: nat)
    requires BooksOk(jobs, b) && i < |jobs| && c < PARTS && b.cells[i][c].Empty?
    ensures b.count[i] == 3 <==> RowFull(b.cells[i][c := Full(MessageOf(jobs, i, c))])
  {
    hide RowOk; hide LogOk; hide RowFull;
    assert RowOk(jobs, i, b.cells[i], b.count[i]);
    RowUpdate(jobs, i, b.cells[i], b.count[i], c);
  }
}
