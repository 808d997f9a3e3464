/**
 * The file-by-file driver of `create_mcp_training_data` in
 * mcp-data-processing/create_training_data.py: read each file named by the metadata, skip the
 * ones that cannot be read, reshape the others and concatenate their records in metadata order.
 * What `pd.read_csv` returns for each file is an input: `None` stands for a read that raised.
 */
module TrainingData {
  import opened Wrappers
  import opened Sequences
  import opened Text
  import opened NumberCleaning
  import opened Reshape

  /** One entry of the file metadata. */
  datatype FileMeta = FileMeta(filename: string, dataType: string, productName: string)

  /** A metadata entry together with what reading its file gave. */
  datatype Source = Source(meta: FileMeta, table: Option<Table>)

  /** The returned message, and the snapshot written to the output file, if one is written. */
  datatype BuildOutcome =
    | NothingProcessed(message: string)
    | Written(message: string, snapshot: seq<Record>)

  const FailureMessage := "Gagal membuat data training. Tidak ada data yang berhasil diproses."

  function SuccessMessage(outputFilename: string, count: nat): string
  {
    "Data training berhasil dibuat dan disimpan di **" + outputFilename + "** dengan total **" +
    DecimalText(count) + "** records. JSON ini siap digunakan untuk FastMCP."
  }

  /**
   * `all_dataframes` after the files of `sources`: one frame per readable file, in order.
   * The first KeyError raised while reshaping ends the run.
   */
  function Collect(sources: seq<Source>): Result<seq<seq<Record>>, ReshapeError>
  {
    if sources == [] then Ok([]) else Step(Collect(sources[..|sources| - 1]), sources[|sources| - 1])
  }

  /** One iteration of the loop over the metadata. */
  function Step(sofar: Result<seq<seq<Record>>, ReshapeError>, source: Source): Result<seq<seq<Record>>, ReshapeError>
  {
    match sofar
    case Err(e) => Err(e)
    case Ok(frames) =>
      if !Readable(source) then Ok(frames)
      else
        match RecordsOf(source)
        case Err(e) => Err(e)
        case Ok(records) => Ok(frames + [records])
  }

  predicate Readable(source: Source)
  {
    source.table.Some?
  }

  /** The records of a readable file. */
  function RecordsOf(source: Source): Result<seq<Record>, ReshapeError>
    requires Readable(source)
  {
    Reshaped(source.table.value, source.meta.dataType)
  }

  function Outcome(frames: seq<seq<Record>>, outputFilename: string): BuildOutcome
  {
    if frames == [] then NothingProcessed(FailureMessage)
    else
      var all := Concat(frames);
      Written(SuccessMessage(outputFilename, |all|), all)
  }

  /** What a whole run returns and writes. */
  function Build(sources: seq<Source>, outputFilename: string): Result<BuildOutcome, ReshapeError>
  {
    match Collect(sources)
    case Err(e) => Err(e)
    case Ok(frames) => Ok(Outcome(frames, outputFilename))
  }

  /**
   * `create_mcp_training_data`, given what reading each file gave: what the code as written
   * returns and writes, which is the corrected run whenever it does not raise.
   */
  method CreateTrainingData(sources: seq<Source>, outputFilename: string) returns (r: Result<BuildOutcome, ReshapeError>)
    ensures r == BuildAsWritten(sources, outputFilename)
    ensures r.Ok? ==> r == Build(sources, outputFilename)
  {
    var frames: seq<seq<Record>> := [];
    for i := 0 to |sources|
      invariant CollectAsWritten(sources[..i]) == Ok(frames)
    {
      assert sources[..i + 1][..i] == sources[..i];
      var source := sources[i];
      assert CollectAsWritten(sources[..i + 1]) == StepAsWritten(Ok(frames), source);
      if source.table.None? {
        continue;
      }
      var records := ReshapeTable(source.table.value, source.meta.dataType);
      if records.Err? {
        CollectAsWrittenErrorPersists(sources[..i + 1], sources[i + 1..]);
        assert sources[..i + 1] + sources[i + 1..] == sources;
        return Err(records.error);
      }
      frames := frames + [records.value];
    }
    assert sources[..|sources|] == sources;
    BuildAsWrittenAgrees(sources, outputFilename);
    if frames == [] {
      return Ok(NothingProcessed(FailureMessage));
    }
    var all := Concat(frames);
    r := Ok(Written(SuccessMessage(outputFilename, |all|), all));
    assert r == Ok(Outcome(frames, outputFilename));
  }

  /** Once a file raises, later files change nothing: the run has ended. */
  lemma {:induction false} CollectErrorPersists(a: seq<Source>, b: seq<Source>)
    requires Collect(a).Err?
    ensures Collect(a + b) == Collect(a)
    decreases |b|
  {
    if b == [] {
      assert a + b == a;
    } else {
      assert (a + b)[..|a + b| - 1] == a + b[..|b| - 1];
      CollectErrorPersists(a, b[..|b| - 1]);
    }
  }

  /** After a run that did not raise, a further part adds its frames, or raises as it would alone. */
  lemma {:induction false} CollectAppend(a: seq<Source>, b: seq<Source>)
    requires Collect(a).Ok?
    ensures Collect(a + b) == if Collect(b).Ok? then Ok(Collect(a).value + Collect(b).value) else Collect(b)
    decreases |b|
  {
    var fa := Collect(a).value;
    if b == [] {
      assert a + b == a;
      assert fa + [] == fa;
    } else {
      var b' := b[..|b| - 1];
      var last := b[|b| - 1];
      assert (a + b)[..|a + b| - 1] == a + b';
      CollectAppend(a, b');
      if Collect(b').Ok? {
        StepAfter(fa, Collect(b').value, last);
      }
    }
  }

  lemma StepAfter(fa: seq<seq<Record>>, fb: seq<seq<Record>>, source: Source)
    ensures Step(Ok(fa + fb), source) == if Step(Ok(fb), source).Ok? then Ok(fa + Step(Ok(fb), source).value) else Step(Ok(fb), source)
  {
    if Readable(source) && RecordsOf(source).Ok? {
      assert fa + fb + [RecordsOf(source).value] == fa + (fb + [RecordsOf(source).value]);
    }
  }

  /** A file that cannot be read is skipped: the run is that of the other files. */
  lemma UnreadableSkipped(a: seq<Source>, source: Source, b: seq<Source>)
    requires !Readable(source)
    ensures Collect(a + [source] + b) == Collect(a + b)
  {
    assert [source][..0] == [];
    assert Collect([source]) == Ok([]);
    if Collect(a).Err? {
      CollectErrorPersists(a, [source]);
      CollectErrorPersists(a + [source], b);
      CollectErrorPersists(a, b);
    } else {
      CollectAppend(a, [source]);
      assert Collect(a).value + [] == Collect(a).value;
      CollectAppend(a + [source], b);
      CollectAppend(a, b);
    }
  }

  /**
   * A run that does not raise keeps one frame per readable file, in metadata order, holding
   * that file's records.
   */
  lemma {:induction false} CollectPerFile(sources: seq<Source>)
    requires Collect(sources).Ok?
    ensures var frames := Collect(sources).value; var readable := Filter(sources, Readable);
      |frames| == |readable| &&
      forall j :: 0 <= j < |readable| ==> RecordsOf(readable[j]) == Ok(frames[j])
    decreases |sources|
  {
    if sources != [] {
      var init := sources[..|sources| - 1];
      assert Collect(init).Ok?;
      CollectPerFile(init);
    }
  }

  /** Nothing is written, and the failure message returned, exactly when no file can be read. */
  lemma NothingProcessedIff(sources: seq<Source>, outputFilename: string)
    ensures Build(sources, outputFilename) == Ok(NothingProcessed(FailureMessage)) <==>
      forall i :: 0 <= i < |sources| ==> !Readable(sources[i])
  {
    if Collect(sources).Ok? {
      CollectPerFile(sources);
      var readable := Filter(sources, Readable);
      if readable != [] {
        assert readable[0] in sources;
      }
      if i :| 0 <= i < |sources| && Readable(sources[i]) {
        assert sources[i] in readable;
      }
    } else {
      if forall i :: 0 <= i < |sources| ==> !Readable(sources[i]) {
        AllUnreadable(sources);
      }
    }
  }

  lemma {:induction false} AllUnreadable(sources: seq<Source>)
    requires forall i :: 0 <= i < |sources| ==> !Readable(sources[i])
    ensures Collect(sources) == Ok([])
    decreases |sources|
  {
    if sources != [] {
      AllUnreadable(sources[..|sources| - 1]);
    }
  }

  /** On success the message reports, in decimal, the number of records written. */
  lemma ReportedCount(sources: seq<Source>, outputFilename: string)
    requires Build(sources, outputFilename).Ok? && Build(sources, outputFilename).value.Written?
    ensures var w := Build(sources, outputFilename).value;
      w.message == SuccessMessage(outputFilename, |w.snapshot|) && Value(DecimalText(|w.snapshot|)) == |w.snapshot|
  {
    ValueOfDecimalText(|Build(sources, outputFilename).value.snapshot|);
  }

  /** A written snapshot holds exactly the records of the readable files. */
  lemma SnapshotMembers(sources: seq<Source>, outputFilename: string, rec: Record)
    requires Build(sources, outputFilename).Ok? && Build(sources, outputFilename).value.Written?
    ensures rec in Build(sources, outputFilename).value.snapshot <==>
      exists i :: 0 <= i < |sources| && Readable(sources[i]) && RecordsOf(sources[i]).Ok? && rec in RecordsOf(sources[i]).value
  {
    var frames := Collect(sources).value;
    assert Build(sources, outputFilename).value.snapshot == Concat(frames);
    FramesMembers(sources, rec);
  }

  lemma FramesMembers(sources: seq<Source>, rec: Record)
    requires Collect(sources).Ok?
    ensures rec in Concat(Collect(sources).value) <==>
      exists i :: 0 <= i < |sources| && Readable(sources[i]) && RecordsOf(sources[i]).Ok? && rec in RecordsOf(sources[i]).value
  {
    var frames := Collect(sources).value;
    CollectPerFile(sources);
    ConcatMembers(frames, rec);
    if j :| 0 <= j < |frames| && rec in frames[j] {
      FromFrame(sources, frames, j, rec);
    }
    if i :| 0 <= i < |sources| && Readable(sources[i]) && RecordsOf(sources[i]).Ok? && rec in RecordsOf(sources[i]).value {
      ToFrame(sources, frames, i, rec);
    }
  }

  lemma FromFrame(sources: seq<Source>, frames: seq<seq<Record>>, j: nat, rec: Record)
    requires |frames| == |Filter(sources, Readable)| && j < |frames| && rec in frames[j]
    requires RecordsOf(Filter(sources, Readable)[j]) == Ok(frames[j])
    ensures exists i :: 0 <= i < |sources| && Readable(sources[i]) && RecordsOf(sources[i]).Ok? && rec in RecordsOf(sources[i]).value
  {
    var source := Filter(sources, Readable)[j];
    assert source in sources;
    var i :| 0 <= i < |sources| && sources[i] == source;
    assert RecordsOf(sources[i]) == Ok(frames[j]);
  }

  lemma ToFrame(sources: seq<Source>, frames: seq<seq<Record>>, i: nat, rec: Record)
    requires |frames| == |Filter(sources, Readable)|
    requires forall j :: 0 <= j < |frames| ==> RecordsOf(Filter(sources, Readable)[j]) == Ok(frames[j])
    requires i < |sources| && Readable(sources[i]) && RecordsOf(sources[i]).Ok? && rec in RecordsOf(sources[i]).value
    ensures exists j :: 0 <= j < |frames| && rec in frames[j]
  {
    var readable := Filter(sources, Readable);
    assert sources[i] in readable;
    var j :| 0 <= j < |readable| && readable[j] == sources[i];
    assert RecordsOf(readable[j]) == Ok(frames[j]);
  }

  /** The metadata's file name and product name play no part: only what was read and the type do. */
  lemma OnlyTablesAndTypesMatter(s1: seq<Source>, s2: seq<Source>, outputFilename: string)
    requires |s1| == |s2|
    requires forall i :: 0 <= i < |s1| ==> s1[i].table == s2[i].table && s1[i].meta.dataType == s2[i].meta.dataType
    ensures Build(s1, outputFilename) == Build(s2, outputFilename)
  {
    CollectIgnoresNames(s1, s2);
  }

  lemma {:induction false} CollectIgnoresNames(s1: seq<Source>, s2: seq<Source>)
    requires |s1| == |s2|
    requires forall i :: 0 <= i < |s1| ==> s1[i].table == s2[i].table && s1[i].meta.dataType == s2[i].meta.dataType
    ensures Collect(s1) == Collect(s2)
    decreases |s1|
  {
    if s1 != [] {
      CollectIgnoresNames(s1[..|s1| - 1], s2[..|s2| - 1]);
    }
  }

  /** The run as written, with the reshaping that raises on a file without any pair. */
  function CollectAsWritten(sources: seq<Source>): Result<seq<seq<Record>>, ReshapeError>
  {
    if sources == [] then Ok([]) else StepAsWritten(CollectAsWritten(sources[..|sources| - 1]), sources[|sources| - 1])
  }

  /** One iteration of the loop over the metadata, as written. */
  function StepAsWritten(sofar: Result<seq<seq<Record>>, ReshapeError>, source: Source): Result<seq<seq<Record>>, ReshapeError>
  {
    match sofar
    case Err(e) => Err(e)
    case Ok(frames) =>
      if !Readable(source) then Ok(frames)
      else
        match ReshapedAsWritten(source.table.value, source.meta.dataType)
        case Err(e) => Err(e)
        case Ok(records) => Ok(frames + [records])
  }

  /** What a whole run as written returns and writes. */
  function BuildAsWritten(sources: seq<Source>, outputFilename: string): Result<BuildOutcome, ReshapeError>
  {
    match CollectAsWritten(sources)
    case Err(e) => Err(e)
    case Ok(frames) => Ok(Outcome(frames, outputFilename))
  }

  /** A readable file whose reshaping, as written, raises KeyError. */
  predicate RaisesAsWritten(source: Source)
  {
    source.table.Some? && ReshapedAsWritten(source.table.value, source.meta.dataType).Err?
  }

  lemma {:induction false} CollectAsWrittenErrorPersists(a: seq<Source>, b: seq<Source>)
    requires CollectAsWritten(a).Err?
    ensures CollectAsWritten(a + b) == CollectAsWritten(a)
    decreases |b|
  {
    if b == [] {
      assert a + b == a;
    } else {
      assert (a + b)[..|a + b| - 1] == a + b[..|b| - 1];
      CollectAsWrittenErrorPersists(a, b[..|b| - 1]);
    }
  }

  /** As written, the run raises exactly when some readable file's reshaping raises. */
  lemma {:induction false} CollectAsWrittenFails(sources: seq<Source>)
    ensures CollectAsWritten(sources).Err? <==> exists i :: 0 <= i < |sources| && RaisesAsWritten(sources[i])
    decreases |sources|
  {
    if sources != [] {
      var n := |sources| - 1;
      var init := sources[..n];
      CollectAsWrittenFails(init);
      var sofar := CollectAsWritten(init);
      assert CollectAsWritten(sources) == StepAsWritten(sofar, sources[n]);
      if sofar.Err? {
        var i :| 0 <= i < |init| && RaisesAsWritten(init[i]);
        assert init[i] == sources[i];
      } else {
        assert StepAsWritten(sofar, sources[n]).Err? <==> RaisesAsWritten(sources[n]);
        forall i | 0 <= i < n
          ensures !RaisesAsWritten(sources[i])
        {
          assert sources[i] == init[i];
        }
      }
    }
  }

  /** A run as written that does not raise has the frames of the corrected run. */
  lemma {:induction false} CollectAsWrittenAgrees(sources: seq<Source>)
    requires CollectAsWritten(sources).Ok?
    ensures CollectAsWritten(sources) == Collect(sources)
    decreases |sources|
  {
    if sources != [] {
      var init := sources[..|sources| - 1];
      assert CollectAsWritten(init).Ok?;
      CollectAsWrittenAgrees(init);
    }
  }

  lemma BuildAsWrittenAgrees(sources: seq<Source>, outputFilename: string)
    requires BuildAsWritten(sources, outputFilename).Ok?
    ensures BuildAsWritten(sources, outputFilename) == Build(sources, outputFilename)
  {
    CollectAsWrittenAgrees(sources);
  }

  /** When every readable file has a pair, the run as written is the corrected run. */
  lemma {:induction false} AllPairedAgrees(sources: seq<Source>)
    requires forall i :: 0 <= i < |sources| && Readable(sources[i]) ==> PairedColumns(sources[i].table.value.header) != []
    ensures CollectAsWritten(sources) == Collect(sources)
    decreases |sources|
  {
    if sources != [] {
      var init := sources[..|sources| - 1];
      forall i | 0 <= i < |init| && Readable(init[i])
        ensures PairedColumns(init[i].table.value.header) != []
      {
        assert init[i] == sources[i];
      }
      AllPairedAgrees(init);
    }
  }

  /**
   * As written too, the failure message is returned, with nothing written, exactly when no
   * file can be read.
   */
  lemma AsWrittenNothingProcessedIff(sources: seq<Source>, outputFilename: string)
    ensures BuildAsWritten(sources, outputFilename) == Ok(NothingProcessed(FailureMessage)) <==>
      forall i :: 0 <= i < |sources| ==> !Readable(sources[i])
  {
    NothingProcessedIff(sources, outputFilename);
    if BuildAsWritten(sources, outputFilename).Ok? {
      BuildAsWrittenAgrees(sources, outputFilename);
    }
    if forall i :: 0 <= i < |sources| ==> !Readable(sources[i]) {
      AllPairedAgrees(sources);
    }
  }

  /**
   * A snapshot the code as written writes holds exactly the records of the readable files,
   * and the message reports their number.
   */
  lemma AsWrittenSnapshotMembers(sources: seq<Source>, outputFilename: string, rec: Record)
    requires BuildAsWritten(sources, outputFilename).Ok? && BuildAsWritten(sources, outputFilename).value.Written?
    ensures var w := BuildAsWritten(sources, outputFilename).value;
      w.message == SuccessMessage(outputFilename, |w.snapshot|) &&
      (rec in w.snapshot <==>
        exists i :: 0 <= i < |sources| && Readable(sources[i]) && RecordsOf(sources[i]).Ok? && rec in RecordsOf(sources[i]).value)
  {
    BuildAsWrittenAgrees(sources, outputFilename);
    SnapshotMembers(sources, outputFilename, rec);
  }

  /**
   * A single readable file whose only metric column lacks its partner: as written the run
   * ends in KeyError and writes nothing; corrected, it writes an empty snapshot.
   */
  lemma PairlessFileAbortsRun(t: Table, meta: FileMeta)
    requires t.header == ["brand_id", "Product Category", "tpt_sep_2025"] && meta.dataType == "churn"
    ensures CollectAsWritten([Source(meta, Some(t))]) == Err(MissingMetricColumns)
    ensures BuildAsWritten([Source(meta, Some(t))], "out") == Err(MissingMetricColumns)
    ensures Build([Source(meta, Some(t))], "out") == Ok(Written(SuccessMessage("out", 0), []))
  {
    var sources := [Source(meta, Some(t))];
    assert sources[..0] == [];
    NoPairExample(t);
    var none: seq<Record> := [];
    var empty: seq<seq<Record>> := [];
    assert RecordsOf(sources[0]) == Ok(none);
    assert Collect(sources[..0]) == Ok(empty);
    assert empty + [none] == [none];
    assert Collect(sources) == Ok([none]);
    var frames := [none];
    assert frames[..0] == [];
    assert Concat(frames) == [];
  }
}
