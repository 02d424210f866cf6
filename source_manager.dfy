/**
 * The source registry of the Go front end (eggo/source/source_manager.go):
 * each file path gets the next source id the first time it is upserted,
 * later upserts replace the text under the same id, and a location is
 * sliced out of the text registered for its path.
 */
module SourceManager {
  import opened Wrappers
  import Source

  /** A span of a file: its path, the byte offset and the number of bytes. */
  datatype SourceLocation = SourceLocation(filePath: string, offset: int, length: int)

  datatype SliceError = OffsetOutOfRange(offset: int, length: int) | NoSource(filePath: string)

  predicate Distinct(xs: seq<string>)
  {
    forall i, j :: 0 <= i < j < |xs| ==> xs[i] != xs[j]
  }

  /** A sequence without repetitions has as many elements as its set. */
  lemma {:induction false} DistinctCard(xs: seq<string>)
    requires Distinct(xs)
    ensures |set x | x in xs| == |xs|
    decreases |xs|
  {
    if xs != [] {
      var init := xs[..|xs| - 1];
      DistinctCard(init);
      assert (set x | x in xs) == (set x | x in init) + {xs[|xs| - 1]};
      assert xs[|xs| - 1] !in init;
    }
  }

  /** The guard of GetCodeSliceForLocation as written: it lets a negative length through. */
  predicate SliceGuardAsWritten(offset: int, length: int, sourceLength: int)
  {
    !(offset < 0 || offset + length > sourceLength)
  }

  /** The guard with the length also checked, so that the slice bounds are always in order. */
  predicate SliceGuard(offset: int, length: int, sourceLength: int)
  {
    !(offset < 0 || length < 0 || offset + length > sourceLength)
  }

  /** Offset 5 and length -3 in a 20-byte text pass the guard as written, and Go's slice [5:2] then panics. */
  lemma {:induction false} NegativeLengthPassesGuard()
    ensures SliceGuardAsWritten(5, -3, 20) && 5 + -3 < 5
  {
  }

  /** The corrected guard admits exactly the in-range slices. */
  lemma {:induction false} SliceGuardInRange(offset: int, length: int, sourceLength: int)
    ensures SliceGuard(offset, length, sourceLength) <==> 0 <= offset <= offset + length <= sourceLength
    ensures SliceGuard(offset, length, sourceLength) ==> SliceGuardAsWritten(offset, length, sourceLength)
  {
  }

  class SourceManager {
    var filePaths: map<string, int>
    var sources: seq<Source.Source>
    /** The path of each source, in id order. */
    ghost var paths: seq<string>

    ghost predicate Valid()
      reads this
    {
      && |paths| == |sources|
      && Distinct(paths)
      && (forall i :: 0 <= i < |paths| ==> paths[i] in filePaths && filePaths[paths[i]] == i)
      && (forall p :: p in filePaths ==> 0 <= filePaths[p] < |paths| && paths[filePaths[p]] == p)
      && (forall i :: 0 <= i < |sources| ==> Source.Valid(sources[i]))
    }

    /** NewSourceManager: no paths and no sources. */
    constructor()
      ensures Valid()
      ensures filePaths == map[] && sources == []
    {
      filePaths := map[];
      sources := [];
      paths := [];
    }

    /** There are exactly as many sources as registered paths. */
    lemma {:induction false} SourceCount()
      requires Valid()
      ensures |filePaths| == |sources|
    {
      assert filePaths.Keys == set p | p in paths;
      DistinctCard(paths);
    }

    /** UpsertSource: a new path is appended under the next id; a known path keeps its id and gets the new text. */
    method UpsertSource(filepath: string, contents: string)
      requires Valid()
      modifies this
      ensures Valid()
      ensures filepath !in old(filePaths) ==>
        && filePaths == old(filePaths)[filepath := |old(sources)|]
        && sources == old(sources) + [Source.Source(filepath, contents, Source.LineStarts(contents), |contents|)]
      ensures filepath in old(filePaths) ==>
        && filePaths == old(filePaths)
        && sources == old(sources)[old(filePaths)[filepath] := Source.Source(filepath, contents, Source.LineStarts(contents), |contents|)]
    {
      var source := Source.NewSource(filepath, contents);
      if filepath !in filePaths {
        assert forall i :: 0 <= i < |paths| ==> paths[i] != filepath;
        filePaths := filePaths[filepath := |sources|];
        sources := sources + [source];
        paths := paths + [filepath];
      } else {
        sources := sources[filePaths[filepath] := source];
      }
    }

    /** GetCodeSliceForLocation: the bytes of the location in the text registered for its path. */
    method GetCodeSliceForLocation(location: SourceLocation) returns (r: Result<string, SliceError>)
      requires Valid()
      ensures location.filePath !in filePaths ==> r == Failure(NoSource(location.filePath))
      ensures location.filePath in filePaths ==>
        var data := sources[filePaths[location.filePath]].data;
        if SliceGuard(location.offset, location.length, |data|)
        then r == Success(data[location.offset..location.offset + location.length])
        else r == Failure(OffsetOutOfRange(location.offset, |data|))
    {
      if location.filePath in filePaths {
        var source := sources[filePaths[location.filePath]];
        if location.offset < 0 || location.length < 0 || location.offset + location.length > source.length {
          return Failure(OffsetOutOfRange(location.offset, source.length));
        }
        return Success(source.data[location.offset..location.offset + location.length]);
      }
      return Failure(NoSource(location.filePath));
    }
  }

  /** TestGetCodeSliceForLocation: slices inside the text, and the out-of-range ones. */
  method SliceTable()
  {
    var manager := new SourceManager();
    manager.UpsertSource("", "01234567890123456789");
    var r := manager.GetCodeSliceForLocation(SourceLocation("", 5, 10));
    assert r == Success(manager.sources[0].data[5..15]);
    r := manager.GetCodeSliceForLocation(SourceLocation("", 0, 100));
    assert r.Failure?;
    r := manager.GetCodeSliceForLocation(SourceLocation("", -1, 10));
    assert r.Failure?;
  }
}
