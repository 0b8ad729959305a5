/** Hydrating the candidate stream in batches, one file query a batch, against
    hydrating each candidate by itself. */
module Hydration {
  import opened Options

  datatype FileVersion = FileVersion(size: int, status: string, path: string)

  datatype Cand = Cand(
    seqNo: int, fileId: string, excluded: string,
    size: int, status: string, pathAtRank: string, pathFinal: string, fileMissing: bool)

  /** The snapshot's files by id. No file has the empty id. */
  type Files = map<string, FileVersion>

  predicate Eligible(r: Cand) { r.fileId != "" && r.excluded == "" }

  /** What producers of excluded candidates keep to: an excluded one names no file. */
  ghost predicate ExcludedNamesNoFile(rs: seq<Cand>) {
    forall i | 0 <= i < |rs| :: rs[i].excluded != "" ==> rs[i].fileId == ""
  }

  /** A record given the row found for its file, if one was. */
  function Filled(r: Cand, row: Option<FileVersion>): Cand {
    match row
    case Some(fv) =>
      r.(size := fv.size, status := fv.status, pathFinal := fv.path,
         pathAtRank := if r.pathAtRank == "" then fv.path else r.pathAtRank)
    case None => if Eligible(r) then r.(fileMissing := true) else r
  }

  /** One candidate hydrated by a query of its own. */
  function HydrateOne(r: Cand, files: Files): Cand {
    Filled(r, if Eligible(r) && r.fileId in files then Some(files[r.fileId]) else None)
  }

  /** What hydrating one candidate comes to: a row found is taken over, the path ranking
      reads only when there was none; a file that is asked for and not there is noted; and
      nothing else changes. */
  lemma HydratedFacts(r: Cand, files: Files)
    ensures var h := HydrateOne(r, files);
      if r.fileId != "" && r.excluded == "" && r.fileId in files then
        && h.size == files[r.fileId].size && h.status == files[r.fileId].status && h.pathFinal == files[r.fileId].path
        && h.pathAtRank == (if r.pathAtRank == "" then files[r.fileId].path else r.pathAtRank)
        && h.fileMissing == r.fileMissing
        && h.seqNo == r.seqNo && h.fileId == r.fileId && h.excluded == r.excluded
      else h == r.(fileMissing := r.fileMissing || (r.fileId != "" && r.excluded == ""))
  {
  }

  function HydrateAll(rs: seq<Cand>, files: Files): (out: seq<Cand>)
    ensures |out| == |rs| && forall i | 0 <= i < |rs| :: out[i] == HydrateOne(rs[i], files)
  {
    seq(|rs|, i requires 0 <= i < |rs| => HydrateOne(rs[i], files))
  }

  ghost predicate Asked(rs: seq<Cand>, n: nat, id: string)
    requires n <= |rs|
  {
    exists i :: 0 <= i < n && Eligible(rs[i]) && rs[i].fileId == id
  }

  /** The distinct file ids of a batch's eligible records, in the order first met. */
  ghost predicate AreIds(ids: seq<string>, rs: seq<Cand>, n: nat)
    requires n <= |rs|
  {
    && (forall k | 0 <= k < |ids| :: Asked(rs, n, ids[k]))
    && (forall i | 0 <= i < n && Eligible(rs[i]) :: rs[i].fileId in ids)
    && (forall j, k | 0 <= j < k < |ids| :: ids[j] != ids[k])
  }

  method CollectIds(batch: seq<Cand>) returns (ids: seq<string>)
    ensures AreIds(ids, batch, |batch|)
  {
    ids := [];
    var seen: set<string> := {};
    for i := 0 to |batch|
      invariant AreIds(ids, batch, i)
      invariant forall s :: s in seen <==> s in ids
    {
      assert forall k | 0 <= k < |ids| :: Asked(batch, i + 1, ids[k]) by {
        forall k | 0 <= k < |ids| ensures Asked(batch, i + 1, ids[k]) { assert Asked(batch, i, ids[k]); }
      }
      if batch[i].fileId == "" || batch[i].excluded != "" || batch[i].fileId in seen {
        continue;
      }
      assert Asked(batch, i + 1, batch[i].fileId);
      ids := ids + [batch[i].fileId];
      seen := seen + {batch[i].fileId};
    }
  }

  /** One query: the rows of the ids asked for that the snapshot has. */
  function FilesById(files: Files, ids: seq<string>): Files {
    map s | s in files && s in ids :: files[s]
  }

  /** Hydrates a batch with one query and writes the rows back to every record of it,
      excluded ones included. */
  method Flush(batch: seq<Cand>, files: Files) returns (out: seq<Cand>, queries: nat)
    requires ExcludedNamesNoFile(batch) && "" !in files
    ensures out == HydrateAll(batch, files)
    ensures queries <= 1 && (batch == [] ==> queries == 0)
  {
    out, queries := [], 0;
    if |batch| == 0 { return; }
    var ids := CollectIds(batch);
    var byId: Files := map[];
    if |ids| > 0 {
      byId := FilesById(files, ids);
      queries := 1;
    }
    assert byId == FilesById(files, ids);
    for i := 0 to |batch|
      invariant out == HydrateAll(batch, files)[..i]
    {
      var r := batch[i];
      RowIsOwn(batch, ids, files, i);
      out := out + [Filled(r, if r.fileId in byId then Some(byId[r.fileId]) else None)];
    }
  }

  /** The row a record finds in its batch's page is the one its own query would find. */
  lemma RowIsOwn(batch: seq<Cand>, ids: seq<string>, files: Files, i: nat)
    requires ExcludedNamesNoFile(batch) && "" !in files && AreIds(ids, batch, |batch|) && i < |batch|
    ensures batch[i].fileId in FilesById(files, ids) <==> Eligible(batch[i]) && batch[i].fileId in files
  {
  }

  /** No more queries than full batches in n records. */
  predicate Within(queries: nat, limit: nat, n: nat) {
    queries * limit <= n
  }

  lemma WithinMore(queries: nat, limit: nat, m: nat, n: nat)
    requires Within(queries, limit, m) && m <= n
    ensures Within(queries, limit, n)
  {
  }

  /** Flushes the records from one place in the stream to another behind those before. */
  method FlushBehind(rs: seq<Cand>, files: Files, from: nat, n: nat, batch: seq<Cand>, before: seq<Cand>)
    returns (out: seq<Cand>, asked: nat)
    requires from <= n <= |rs| && batch == rs[from..n] && before == HydrateAll(rs, files)[..from]
    requires ExcludedNamesNoFile(rs) && "" !in files
    ensures out == HydrateAll(rs, files)[..n] && asked <= 1 && (from == n ==> asked == 0)
  {
    var done;
    done, asked := Flush(batch, files);
    BatchOfWhole(rs, files, from, n);
    out := before + done;
  }

  /** The stream read in batches of at most limit comes out as if every candidate were
      hydrated alone, whatever the limit, with at most a query for every full batch
      and one for what is left. */
  method HydrateStream(rs: seq<Cand>, files: Files, limit: nat) returns (out: seq<Cand>, queries: nat)
    requires limit > 0 && ExcludedNamesNoFile(rs) && "" !in files
    ensures out == HydrateAll(rs, files)
    ensures Within(queries, limit, |rs| + limit - 1)
  {
    out, queries := [], 0;
    var batch: seq<Cand> := [];
    var from, asked := 0, 0;
    for i := 0 to |rs|
      invariant 0 <= from <= i < from + limit && batch == rs[from..i]
      invariant out == HydrateAll(rs, files)[..from]
      invariant Within(queries, limit, from)
    {
      batch := batch + [rs[i]];
      if |batch| == limit {
        out, asked := FlushBehind(rs, files, from, i + 1, batch, out);
        OneMore(queries, asked, limit, from);
        queries, batch, from := queries + asked, [], i + 1;
      }
    }
    out, asked := FlushBehind(rs, files, from, |rs|, batch, out);
    OneMore(queries, asked, limit, from);
    WithinMore(queries + asked, limit, if from == |rs| then from else from + limit, |rs| + limit - 1);
    queries := queries + asked;
  }

  lemma OneMore(queries: nat, asked: nat, limit: nat, n: nat)
    requires asked <= 1 && Within(queries, limit, n)
    ensures Within(queries + asked, limit, n + limit) && (asked == 0 ==> Within(queries + asked, limit, n))
  {
  }

  lemma BatchOfWhole(rs: seq<Cand>, files: Files, m: nat, n: nat)
    requires m <= n <= |rs|
    ensures HydrateAll(rs, files)[..m] + HydrateAll(rs[m..n], files) == HydrateAll(rs, files)[..n]
    ensures HydrateAll(rs, files)[..|rs|] == HydrateAll(rs, files)
  {
  }

  /** An excluded candidate that did name a file would be hydrated just when its batch
      happens to ask for the file: the rule its producers keep to is needed. */
  lemma BatchWouldShow(eligible: Cand, excluded: Cand, fv: FileVersion)
    requires Eligible(eligible) && excluded.excluded != "" && excluded.fileId == eligible.fileId
    requires excluded.pathFinal != fv.path
    ensures var files := map[eligible.fileId := fv];
      && excluded.fileId in FilesById(files, [eligible.fileId]) && excluded.fileId !in FilesById(files, [])
      && Filled(excluded, Some(fv)) != Filled(excluded, None)
  {
    assert Filled(excluded, Some(fv)).pathFinal == fv.path;
  }
}
