/** Live blocks: rows split over writer threads, rendered in parallel and merged into one push_block command. */
module Rendering {
  import opened BlockCache

  // ---- Rendering rows ----

  function Tuple(r: Row): string {
    "(" + r.payload + ")\n"
  }

  /** The rows of one table as the text of an SQL array. */
  function Render(rows: seq<Row>): string {
    if rows == [] then []
    else if |rows| == 1 then Tuple(rows[0])
    else Tuple(rows[0]) + ("," + Render(rows[1..]))
  }

  lemma {:induction false} RenderAppend(a: seq<Row>, b: seq<Row>)
    ensures a == [] ==> Render(a + b) == Render(b)
    ensures b == [] ==> Render(a + b) == Render(a)
    ensures a != [] && b != [] ==> Render(a + b) == Render(a) + "," + Render(b)
  {
    hide Tuple;
    if a == [] {
      assert a + b == b;
    } else if b == [] {
      assert a + b == a;
    } else {
      assert (a + b)[1..] == a[1..] + b;
      RenderAppend(a[1..], b);
      if |a| > 1 {
        assert Tuple(a[0]) + ("," + (Render(a[1..]) + "," + Render(b)))
            == Tuple(a[0]) + ("," + Render(a[1..])) + "," + Render(b);
      } else {
        assert a[1..] == [] && Tuple(a[0]) + ("," + Render(b)) == Tuple(a[0]) + "," + Render(b);
      }
    }
  }

  lemma RenderEmptyIff(rows: seq<Row>)
    ensures Render(rows) == [] <==> rows == []
  {
  }

  /** flush_scalar_live_data: never called on an empty chunk. */
  method FlushScalarLiveData(rows: seq<Row>) returns (query: string)
    requires rows != []
    ensures query == Render(rows)
  {
    hide Render;
    OneRow(rows[0]);
    query := "";
    query := query + "(";
    query := query + rows[0].payload;
    query := query + ")\n";
    assert query == Tuple(rows[0]) by { assert "" + "(" == "("; }
    assert rows[..1] == [rows[0]];
    for i := 1 to |rows|
      invariant query == Render(rows[..i])
    {
      assert rows[..i + 1] == rows[..i] + [rows[i]];
      RenderAppend(rows[..i], [rows[i]]);
      OneRow(rows[i]);
      ghost var before := query;
      query := query + ",(";
      query := query + rows[i].payload;
      query := query + ")\n";
      assert query == before + "," + Tuple(rows[i]);
    }
    assert rows[..|rows|] == rows;
  }

  lemma OneRow(r: Row)
    ensures Render([r]) == Tuple(r)
  {
  }

  // ---- Splitting and merging ----

  /** Rounded up. */
  function BatchLength(n: nat, writers: nat): nat
    requires writers > 0
  {
    (n + writers - 1) / writers
  }

  function Cut(n: nat, writers: nat, k: nat): (at: nat)
    requires writers > 0
    ensures at <= n
  {
    if k * BatchLength(n, writers) < n then k * BatchLength(n, writers) else n
  }

  lemma CutGrows(n: nat, writers: nat, k: nat)
    requires writers > 0
    ensures Cut(n, writers, k) <= Cut(n, writers, k + 1)
  {
    var b := BatchLength(n, writers);
    assert (k + 1) * b == k * b + b;
  }

  function Slice(rows: seq<Row>, writers: nat, k: nat): seq<Row>
    requires writers > 0
  {
    CutGrows(|rows|, writers, k);
    rows[Cut(|rows|, writers, k)..Cut(|rows|, writers, k + 1)]
  }

  function Slices(rows: seq<Row>, writers: nat, k: nat): seq<seq<Row>>
    requires writers > 0 && k <= writers
  {
    if k == 0 then [] else Slices(rows, writers, k - 1) + [Slice(rows, writers, k - 1)]
  }

  function Concat(parts: seq<seq<Row>>): seq<Row> {
    if parts == [] then [] else Concat(parts[..|parts| - 1]) + parts[|parts| - 1]
  }

  lemma CutEnds(n: nat, writers: nat)
    requires writers > 0
    ensures Cut(n, writers, 0) == 0 && Cut(n, writers, writers) == n
  {
    var b := BatchLength(n, writers);
    assert writers * b >= n by { RoundUp(n, writers, b); }
    assert 0 * b == 0;
  }

  lemma RoundUp(n: nat, w: nat, b: nat)
    requires w > 0 && b == (n + w - 1) / w
    ensures w * b >= n
  {
    assert n + w - 1 == w * b + (n + w - 1) % w;
  }

  lemma ConcatSnoc(parts: seq<seq<Row>>, last: seq<Row>)
    ensures Concat(parts + [last]) == Concat(parts) + last
  {
    assert (parts + [last])[..|parts|] == parts;
  }

  /** One more slice reaches up to the next cut. */
  lemma SliceExtends(rows: seq<Row>, writers: nat, k: nat)
    requires writers > 0
    ensures rows[..Cut(|rows|, writers, k)] + Slice(rows, writers, k) == rows[..Cut(|rows|, writers, k + 1)]
  {
    hide Cut;
    CutGrows(|rows|, writers, k);
  }

  lemma {:induction false} SlicesConcat(rows: seq<Row>, writers: nat, k: nat)
    requires writers > 0 && k <= writers
    ensures |Slices(rows, writers, k)| == k && Concat(Slices(rows, writers, k)) == rows[..Cut(|rows|, writers, k)]
  {
    hide Cut, Slice, Concat;
    if k == 0 {
      CutEnds(|rows|, writers);
      NoParts();
    } else {
      SlicesConcat(rows, writers, k - 1);
      ConcatSnoc(Slices(rows, writers, k - 1), Slice(rows, writers, k - 1));
      SliceExtends(rows, writers, k - 1);
    }
  }

  lemma NoParts()
    ensures Concat([]) == []
  {
  }

  /** The slices are consecutive and are the whole list. */
  lemma SlicesPartition(rows: seq<Row>, writers: nat)
    requires writers > 0
    ensures |Slices(rows, writers, writers)| == writers && Concat(Slices(rows, writers, writers)) == rows
  {
    SlicesConcat(rows, writers, writers);
    CutEnds(|rows|, writers);
    assert rows[..|rows|] == rows;
  }

  /** The work is shared evenly: no slice is longer than the average, rounded up. */
  lemma SliceIsShort(rows: seq<Row>, writers: nat, k: nat)
    requires writers > 0
    ensures |Slice(rows, writers, k)| * writers < |rows| + writers
  {
    var b, n := BatchLength(|rows|, writers), |Slice(rows, writers, k)|;
    assert (k + 1) * b == k * b + b;
    assert n <= b;
    assert n * writers <= b * writers by { assert (b - n) * writers >= 0; }
    RoundedUp(|rows|, writers, b);
  }

  lemma RoundedUp(n: nat, w: nat, b: nat)
    requires w > 0 && b == (n + w - 1) / w
    ensures b * w < n + w
  {
    assert n + w - 1 == w * b + (n + w - 1) % w;
  }

  /** chunks_for_writers_splitter_base::trigger: what each writer is given. */
  method Split(rows: seq<Row>, writers: nat) returns (batches: seq<seq<Row>>)
    requires writers > 0
    ensures batches == Slices(rows, writers, writers)
  {
    hide Cut, BatchLength;
    var length := BatchLength(|rows|, writers);
    batches := [];
    for writer := 0 to writers
      invariant batches == Slices(rows, writers, writer)
    {
      CutMeans(|rows|, writers, writer);
      CutMeans(|rows|, writers, writer + 1);
      CutGrows(|rows|, writers, writer);
      var begin := if writer * length < |rows| then writer * length else |rows|;
      var end := if (writer + 1) * length < |rows| then (writer + 1) * length else |rows|;
      batches := batches + [rows[begin..end]];
    }
  }

  lemma CutMeans(n: nat, writers: nat, k: nat)
    requires writers > 0
    ensures Cut(n, writers, k) == if k * BatchLength(n, writers) < n then k * BatchLength(n, writers) else n
  {
  }

  function CommaJoined(before: string, last: string): string {
    if last == [] then before else if before == [] then last else before + ("," + last)
  }

  /** Non-empty strings separated by commas. */
  function Merged(strings: seq<string>): string {
    if strings == [] then [] else CommaJoined(Merged(strings[..|strings| - 1]), strings[|strings| - 1])
  }

  method GetMergedStrings(strings: seq<string>) returns (result: string, cleared: seq<string>)
    ensures result == Merged(strings)
    ensures |cleared| == |strings| && forall i | 0 <= i < |cleared| :: cleared[i] == []
  {
    result, cleared := [], strings;
    for i := 0 to |strings|
      invariant result == Merged(strings[..i]) && |cleared| == |strings|
      invariant forall j | 0 <= j < i :: cleared[j] == []
      invariant forall j | i <= j < |strings| :: cleared[j] == strings[j]
    {
      assert strings[..i + 1][..i] == strings[..i];
      if strings[i] != [] {
        if result == [] {
          result := result + strings[i];
        } else {
          result := result + ("," + strings[i]);
        }
        cleared := cleared[i := []];
      }
    }
    assert strings[..|strings|] == strings;
  }

  function RenderAll(parts: seq<seq<Row>>): seq<string> {
    if parts == [] then [] else RenderAll(parts[..|parts| - 1]) + [Render(parts[|parts| - 1])]
  }

  lemma MergedSnoc(strings: seq<string>, last: string)
    ensures Merged(strings + [last]) == CommaJoined(Merged(strings), last)
  {
    assert (strings + [last])[..|strings|] == strings;
  }

  lemma RenderJoined(before: seq<Row>, last: seq<Row>)
    ensures Render(before + last) == CommaJoined(Render(before), Render(last))
  {
    hide Render;
    RenderEmptyIff(before);
    RenderEmptyIff(last);
    RenderAppend(before, last);
    assert before + [] == before && [] + last == last;
    assert Render(before) + "," + Render(last) == Render(before) + ("," + Render(last));
  }

  lemma {:induction false} MergedRenders(parts: seq<seq<Row>>)
    ensures Merged(RenderAll(parts)) == Render(Concat(parts))
  {
    hide Render, CommaJoined;
    NoRows();
    if parts != [] {
      var before, last := parts[..|parts| - 1], parts[|parts| - 1];
      MergedRenders(before);
      MergedSnoc(RenderAll(before), Render(last));
      RenderJoined(Concat(before), last);
    }
  }

  lemma NoRows()
    ensures Render([]) == []
  {
  }

  /** Parallel rendering refines serial rendering: any number of writers gives the one-writer text. */
  lemma ParallelIsSerial(rows: seq<Row>, writers: nat)
    requires writers > 0
    ensures Merged(RenderAll(Slices(rows, writers, writers))) == Render(rows)
  {
    SlicesPartition(rows, writers);
    MergedRenders(Slices(rows, writers, writers));
  }
}
