/**
 rotWriter.Write and logRotator.rotate of cmd/pdx/logrotate.go over a small file
 system: two names (pdx.log and pdx.log.rotating), inode contents, and the
 process's descriptor table. Every call that can fail is answered by a parameter,
 and other goroutines may write through rotWriter wherever rotate does not hold
 its mutex.
 */
module LogRotation {
  import opened Outcomes

  type Byte = b: nat | b < 256
  type Bytes = seq<Byte>
  type Inode = nat
  type Fd = nat

  /** What one write(2) comes back with. */
  datatype WriteAnswer = Wrote(n: nat) | Interrupted | Failed

  datatype WriteEnd = Complete | Error | OutOfAnswers

  /** Which of rotate's calls succeed, and what other goroutines write at its k-th unlocked point. */
  datatype Oracle = Oracle(
    stats: bool,
    renames: bool,
    opens: bool,
    dups: nat -> bool,
    dup2s: nat -> bool,
    between: nat -> Bytes)

  /** From before to after only inode i changed: added was appended to it. */
  ghost predicate Grew(before: seq<Bytes>, after: seq<Bytes>, i: Inode, added: Bytes) {
    && i < |before| == |after|
    && after[i] == before[i] + added
    && forall j :: 0 <= j < |before| && j != i ==> after[j] == before[j]
  }

  lemma GrewTwice(a: seq<Bytes>, b: seq<Bytes>, c: seq<Bytes>, i: Inode, x: Bytes, y: Bytes)
    requires Grew(a, b, i, x) && Grew(b, c, i, y)
    ensures Grew(a, c, i, x + y)
  {
    assert a[i] + x + y == a[i] + (x + y);
  }

  /** From before to after toOld was appended to inode i and then toNew to inode k. */
  ghost predicate Split(before: seq<Bytes>, after: seq<Bytes>, i: Inode, toOld: Bytes, k: Inode, toNew: Bytes) {
    && i < |before| == |after| && k < |before| && i != k
    && after[i] == before[i] + toOld && after[k] == before[k] + toNew
    && forall j :: 0 <= j < |before| && j != i && j != k ==> after[j] == before[j]
  }

  lemma GrewIsSplit(a: seq<Bytes>, b: seq<Bytes>, i: Inode, x: Bytes, k: Inode)
    requires Grew(a, b, i, x) && k < |a| && k != i
    ensures Split(a, b, i, x, k, [])
  {
    assert b[k] == a[k] + [];
  }

  /** How much these answers say was written. */
  function Counts(answers: seq<WriteAnswer>): nat {
    if answers == [] then 0
    else
      var last := answers[|answers| - 1];
      Counts(answers[..|answers| - 1]) + (if last.Wrote? then last.n else 0)
  }

  /** Where the first error is, or the end. */
  function FirstFailure(answers: seq<WriteAnswer>): (k: nat)
    ensures k <= |answers| && (k < |answers| ==> answers[k].Failed?)
    ensures forall j :: 0 <= j < k ==> !answers[j].Failed?
  {
    if answers == [] || answers[0].Failed? then 0 else 1 + FirstFailure(answers[1..])
  }

  /** What is answered as written before the first error. */
  function Accepted(answers: seq<WriteAnswer>): nat {
    Counts(answers[..FirstFailure(answers)])
  }

  lemma {:induction false} CountsGrow(answers: seq<WriteAnswer>, i: nat, k: nat)
    requires i <= k <= |answers|
    ensures Counts(answers[..i]) <= Counts(answers[..k])
  {
    if i < k {
      CountsGrow(answers, i, k - 1);
      assert answers[..k][..k - 1] == answers[..k - 1];
    }
  }

  class LogRotator {
    const fds: seq<Fd>               // the descriptors to repoint (stdout, stderr)
    const writer: nat                // which of them rotWriter writes to
    var log: Option<Inode>           // the name pdx.log
    var rotating: Option<Inode>      // the name pdx.log.rotating
    var contents: seq<Bytes>         // by inode
    var table: map<Fd, Inode>        // the process's descriptors
    var nextFd: Fd
    var stopped: bool
    var compressRequested: bool
    ghost var written: Bytes         // everything written through rotWriter, in order

    ghost predicate Valid()
      reads this
    {
      && writer < |fds|
      && (forall i :: 0 <= i < |fds| ==> fds[i] in table)
      && (forall i, j :: 0 <= i < j < |fds| ==> fds[i] != fds[j])
      && (forall f :: f in table ==> f < nextFd && table[f] < |contents|)
      && (log.Some? ==> log.value < |contents|)
      && (rotating.Some? ==> rotating.value < |contents| && rotating != log)
    }

    /** Every descriptor is on inode. */
    ghost predicate AllOn(inode: Inode)
      reads this
    {
      forall i :: 0 <= i < |fds| ==> fds[i] in table && table[fds[i]] == inode
    }

    constructor (fds: seq<Fd>, writer: nat, size: Bytes)
      requires writer < |fds| && forall i, j :: 0 <= i < j < |fds| ==> fds[i] != fds[j]
      ensures Valid() && AllOn(0) && log == Some(0) && this.fds == fds && this.writer == writer
      ensures contents == [size] && written == [] && !stopped && rotating == None
    {
      this.fds, this.writer := fds, writer;
      log, rotating, contents := Some(0), None, [size];
      var t, top := map[], 0;
      for i := 0 to |fds|
        invariant forall j :: 0 <= j < i ==> fds[j] in t
        invariant forall f :: f in t ==> t[f] == 0 && f < top
      {
        t := t[fds[i] := 0];
        top := if fds[i] >= top then fds[i] + 1 else top;
      }
      table, nextFd, stopped, compressRequested, written := t, top, false, false, [];
    }

    /** The bytes b reach the file the writer's descriptor is on. */
    method Append(b: Bytes)
      requires Valid()
      modifies this`contents, this`written
      ensures Valid() && written == old(written) + b && Grew(old(contents), contents, table[fds[writer]], b)
    {
      var i := table[fds[writer]];
      contents := contents[i := contents[i] + b];
      written := written + b;
    }

    /**
     rotWriter.Write: write until p is out, an error comes, or the answers end. Short and
     interrupted writes are continued, so what reached the descriptor's file is exactly
     p[..n]: all that was answered as written, up to the first error or the end of p.
     */
    method Write(p: Bytes, answers: seq<WriteAnswer>) returns (n: nat, end: WriteEnd)
      requires Valid()
      modifies this`contents, this`written
      ensures Valid() && n <= |p| && written == old(written) + p[..n]
      ensures Grew(old(contents), contents, table[fds[writer]], p[..n])
      ensures end.Complete? <==> n == |p|
      ensures n == if Accepted(answers) <= |p| then Accepted(answers) else |p|
      ensures end.Error? <==> FirstFailure(answers) < |answers| && Accepted(answers) < |p|
    {
      n, end := 0, OutOfAnswers;
      var i := 0;
      assert answers[..0] == [];
      while n < |p| && i < |answers|
        invariant Valid() && n <= |p| && i <= |answers| && end == OutOfAnswers
        invariant written == old(written) + p[..n]
        invariant Grew(old(contents), contents, table[fds[writer]], p[..n])
        invariant i <= FirstFailure(answers) && n == (if Counts(answers[..i]) <= |p| then Counts(answers[..i]) else |p|)
        decreases |answers| - i
      {
        var a := answers[i];
        assert answers[..i + 1][..i] == answers[..i];
        CountsGrow(answers, i, FirstFailure(answers));
        i := i + 1;
        if a.Interrupted? {
          continue;
        }
        if a.Failed? {
          end := Error;
          return;
        }
        var m := if a.n <= |p| - n then a.n else |p| - n;
        ghost var before := contents;
        Append(p[n..n + m]);
        GrewTwice(old(contents), before, contents, table[fds[writer]], p[..n], p[n..n + m]);
        assert p[..n] + p[n..n + m] == p[..n + m];
        n := n + m;
      }
      CountsGrow(answers, i, FirstFailure(answers));
      end := if n == |p| then Complete else OutOfAnswers;
    }

    /** A new descriptor on inode i. */
    method OpenFd(i: Inode) returns (d: Fd)
      requires Valid() && i < |contents|
      modifies this`table, this`nextFd
      ensures Valid() && d !in old(table) && table == old(table)[d := i]
    {
      d := nextFd;
      table := table[d := i];
      nextFd := nextFd + 1;
    }

    /** The table is as before plus the descriptors extra, none of which was in use. */
    ghost predicate Extends(before: map<Fd, Inode>, extra: set<Fd>)
      reads this
    {
      table.Keys == before.Keys + extra && before.Keys !! extra && forall f :: f in before ==> table[f] == before[f]
    }

    static ghost function Set(ds: seq<Fd>): set<Fd> {
      set d | d in ds
    }

    method CloseAll(ds: seq<Fd>, ghost before: map<Fd, Inode>, ghost extra: set<Fd>)
      requires Valid() && Extends(before, extra + Set(ds)) && Set(ds) !! extra
      requires forall i :: 0 <= i < |fds| ==> fds[i] in before
      modifies this`table
      ensures Valid() && Extends(before, extra)
    {
      for i := 0 to |ds|
        invariant Valid() && Extends(before, extra + (Set(ds) - Set(ds[..i])))
      {
        assert Set(ds[..i + 1]) == Set(ds[..i]) + {ds[i]};
        table := table - {ds[i]};
      }
      assert Set(ds) - Set(ds[..|ds|]) == {} && extra + {} == extra;
    }

    /** The copies in saved are all on inode. */
    ghost predicate CopiesOn(saved: seq<Fd>, inode: Inode)
      reads this
    {
      forall i :: 0 <= i < |saved| ==> saved[i] in table && table[saved[i]] == inode
    }

    /** Others write b, then one more descriptor is dup'ed; if that fails the copies so far are closed. */
    method SaveOne(b: Bytes, dups: bool, fd: Fd, soFar: seq<Fd>, inode: Inode, ghost before: map<Fd, Inode>)
        returns (saved: seq<Fd>)
      requires Valid() && fd in before && before[fd] == inode && table[fds[writer]] == inode
      requires Extends(before, Set(soFar)) && CopiesOn(soFar, inode)
      requires forall i :: 0 <= i < |fds| ==> fds[i] in before
      modifies this`table, this`nextFd, this`contents, this`written
      ensures Valid() && written == old(written) + b && Grew(old(contents), contents, inode, b)
      ensures dups ==> |saved| == |soFar| + 1 && Extends(before, Set(saved)) && CopiesOn(saved, inode)
      ensures !dups ==> Extends(before, {})
    {
      Append(b);
      if !dups {
        CloseAll(soFar, before, {});
        return soFar;
      }
      var d := OpenFd(table[fd]);
      saved := soFar + [d];
      assert Set(saved) == Set(soFar) + {d};
    }

    /** Dup each descriptor; on a failure the copies made so far are closed again. */
    method SaveFds(o: Oracle, inode: Inode) returns (saved: seq<Fd>, ok: bool, ghost added: Bytes)
      requires Valid() && AllOn(inode) && inode < |contents|
      modifies this`table, this`nextFd, this`contents, this`written
      ensures Valid() && written == old(written) + added && Grew(old(contents), contents, inode, added)
      ensures Extends(old(table), if ok then Set(saved) else {})
      ensures ok ==> |saved| == |fds| && CopiesOn(saved, inode)
      ensures ok <==> forall i :: 0 <= i < |fds| ==> o.dups(i)
    {
      saved, ok, added := [], true, [];
      for i := 0 to |fds|
        invariant Valid() && |saved| == i && Extends(old(table), Set(saved)) && CopiesOn(saved, inode)
        invariant written == old(written) + added && Grew(old(contents), contents, inode, added)
        invariant forall j :: 0 <= j < i ==> o.dups(j)
      {
        ghost var c := contents;
        assert old(table)[fds[writer]] == inode && old(table)[fds[i]] == inode;
        saved := SaveOne(o.between(1 + i), o.dups(i), fds[i], saved, inode, old(table));
        GrewTwice(old(contents), c, contents, inode, added, o.between(1 + i));
        added := added + o.between(1 + i);
        if !o.dups(i) {
          ok := false;
          return;
        }
      }
    }

    /** dup2 the saved copies back over the first n descriptors. */
    method PutBack(saved: seq<Fd>, n: nat, inode: Inode)
      requires Valid() && n <= |fds| == |saved| && inode < |contents|
      requires CopiesOn(saved, inode)
      requires forall i, j :: 0 <= i < |saved| && 0 <= j < |fds| ==> saved[i] != fds[j]
      requires forall i :: n <= i < |fds| ==> table[fds[i]] == inode
      modifies this`table
      ensures Valid() && AllOn(inode) && Others(old(table))
    {
      for k := 0 to n
        invariant Valid() && Others(old(table))
        invariant CopiesOn(saved, inode)
        invariant forall i :: 0 <= i < k || n <= i < |fds| ==> table[fds[i]] == inode
      {
        table := table[fds[k] := table[saved[k]]];
      }
    }

    /** No descriptor came or went since before, and those not in fds are where they were. */
    ghost predicate Others(before: map<Fd, Inode>)
      reads this
    {
      table.Keys == before.Keys && forall f :: f in before && f !in Set(fds) ==> table[f] == before[f]
    }

    /**
     Under the writer's mutex: dup2 the new file over each descriptor; on a failure put back those
     already switched.
     */
    method SwitchFds(nfd: Fd, saved: seq<Fd>, dup2s: nat -> bool, newFile: Inode, inode: Inode) returns (ok: bool)
      requires Valid() && AllOn(inode) && |saved| == |fds| && inode < |contents| && newFile < |contents|
      requires nfd in table && table[nfd] == newFile && nfd !in fds
      requires CopiesOn(saved, inode)
      requires forall i, j :: 0 <= i < |saved| && 0 <= j < |fds| ==> saved[i] != fds[j]
      modifies this`table
      ensures Valid() && Others(old(table)) && AllOn(if ok then newFile else inode)
      ensures ok <==> forall i :: 0 <= i < |fds| ==> dup2s(i)
    {
      for i := 0 to |fds|
        invariant Valid() && Others(old(table)) && table[nfd] == newFile
        invariant CopiesOn(saved, inode)
        invariant forall j :: 0 <= j < |fds| ==> table[fds[j]] == if j < i then newFile else inode
        invariant forall j :: 0 <= j < i ==> dup2s(j)
      {
        if !dup2s(i) {
          PutBack(saved, i, inode);
          return false;
        }
        table := table[fds[i] := table[nfd]];
      }
      return true;
    }

    /** rotate from the opened new file on: save, switch, close. The names are the caller's. */
    method Commit(o: Oracle, newFile: Inode, inode: Inode) returns (ok: bool, ghost toOld: Bytes, ghost toNew: Bytes)
      requires Valid() && AllOn(inode) && newFile < |contents| && inode < |contents| && newFile != inode
      modifies this`table, this`nextFd, this`contents, this`written
      ensures Valid() && written == old(written) + toOld + toNew && (!ok ==> toNew == [])
      ensures Split(old(contents), contents, inode, toOld, newFile, toNew)
      ensures Others(old(table)) && AllOn(if ok then newFile else inode)
      ensures ok <==> (forall i :: 0 <= i < |fds| ==> o.dups(i)) && (forall i :: 0 <= i < |fds| ==> o.dup2s(i))
    {
      var nfd, saved;
      nfd, saved, ok, toOld := OpenAndSave(o, newFile, inode);
      toNew := [];
      GrewIsSplit(old(contents), contents, inode, toOld, newFile);
      if !ok {
        return;
      }
      ok := SwitchAndClose(nfd, saved, o.dup2s, newFile, inode, old(table));
      assert table[fds[writer]] == if ok then newFile else inode;
      ghost var c, added := contents, toOld;
      var late := o.between(1 + |fds|);
      Append(late);
      if ok {
        toNew := late;
      } else {
        toOld := added + late;
        GrewTwice(old(contents), c, contents, inode, added, late);
        GrewIsSplit(old(contents), contents, inode, toOld, newFile);
      }
    }

    /** Open the new file and save every descriptor; on a failure everything opened here is closed. */
    method OpenAndSave(o: Oracle, newFile: Inode, inode: Inode)
        returns (nfd: Fd, saved: seq<Fd>, ok: bool, ghost added: Bytes)
      requires Valid() && AllOn(inode) && newFile < |contents| && inode < |contents|
      modifies this`table, this`nextFd, this`contents, this`written
      ensures Valid() && AllOn(inode) && written == old(written) + added && Grew(old(contents), contents, inode, added)
      ensures Extends(old(table), if ok then {nfd} + Set(saved) else {})
      ensures ok ==> nfd in table && table[nfd] == newFile && nfd !in saved
      ensures ok ==> |saved| == |fds| && CopiesOn(saved, inode)
      ensures ok <==> forall i :: 0 <= i < |fds| ==> o.dups(i)
    {
      nfd := OpenFd(newFile);
      ghost var withNew := table;
      saved, ok, added := SaveFds(o, inode);
      assert AllOn(inode);
      if !ok {
        assert Set([nfd]) == {nfd} && {} + {nfd} == {nfd};
        CloseAll([nfd], old(table), {});
        assert AllOn(inode);
      } else {
        assert withNew.Keys == old(table).Keys + {nfd};
        assert nfd !in Set(saved);
      }
    }

    method SwitchAndClose(nfd: Fd, saved: seq<Fd>, dup2s: nat -> bool, newFile: Inode, inode: Inode,
                          ghost before: map<Fd, Inode>) returns (ok: bool)
      requires Valid() && AllOn(inode) && |saved| == |fds| && inode < |contents| && newFile < |contents|
      requires nfd in table && table[nfd] == newFile && Extends(before, {nfd} + Set(saved)) && nfd !in saved
      requires forall i :: 0 <= i < |fds| ==> fds[i] in before
      requires CopiesOn(saved, inode)
      modifies this`table
      ensures Valid() && Others(before) && AllOn(if ok then newFile else inode)
      ensures ok <==> forall i :: 0 <= i < |fds| ==> dup2s(i)
    {
      assert forall i :: 0 <= i < |saved| ==> saved[i] in Set(saved);
      ok := SwitchFds(nfd, saved, dup2s, newFile, inode);
      CloseCopies(nfd, saved, before);
    }

    /** Close the saved copies and the new file's own descriptor. */
    method CloseCopies(nfd: Fd, saved: seq<Fd>, ghost before: map<Fd, Inode>)
      requires Valid() && table.Keys == before.Keys + Set(saved) + {nfd}
      requires before.Keys !! Set(saved) && nfd !in before && nfd !in saved
      requires forall i :: 0 <= i < |fds| ==> fds[i] in before
      modifies this`table
      ensures Valid() && table.Keys == before.Keys && forall f :: f in before ==> table[f] == old(table)[f]
    {
      ghost var keep := map f | f in before :: table[f];
      assert Set([nfd]) == {nfd};
      assert Extends(keep, {nfd} + Set(saved));
      CloseAll(saved, keep, {nfd});
      assert {} + Set([nfd]) == {nfd};
      CloseAll([nfd], keep, {});
    }

    /**
     All or nothing. After a success every descriptor is on a fresh file at pdx.log and the
     old inode is at .rotating; after a failure of any call (the undo renames and closes
     succeeding) both names and the whole descriptor table are as before, no copy left open.
     Either way nothing written meanwhile is lost or reordered: the old file's bytes followed
     by the new file's are what was there plus everything written since.
     */
    method Rotate(o: Oracle) returns (ok: bool, ghost added: Bytes)
      requires Valid() && (log.Some? ==> AllOn(log.value))
      modifies this
      ensures Valid() && (log.Some? ==> AllOn(log.value)) && (log.None? <==> old(log).None?) && Others(old(table))
      ensures stopped == old(stopped) && written == old(written) + added
      ensures ok ==> old(log).Some? && rotating == old(log) && log.value >= |old(contents)|
      ensures ok ==> contents[rotating.value] + contents[log.value] == old(contents[log.value]) + added
      ensures !ok ==> log == old(log) && rotating == old(rotating)
      ensures !ok && log.Some? ==> contents[log.value] == old(contents[log.value]) + added
      ensures |contents| >= |old(contents)|
      ensures forall i :: 0 <= i < |old(contents)| && Some(i) != old(log) ==> contents[i] == old(contents)[i]
      ensures old(stopped) ==> !ok
      ensures compressRequested <==> old(compressRequested) || ok || (!old(stopped) && old(rotating).Some?)
      ensures ok <==> !old(stopped) && old(rotating).None? && old(log).Some? && AllSucceed(o)
    {
      ok, added := false, [];
      if stopped {
        return;
      }
      if rotating.Some? {
        compressRequested := true;
        return;
      }
      if log.None? || !o.stats || !o.renames {
        return;
      }
      ok, added := RotateNamed(o);
    }

    /** rotate from the rename on. */
    method RotateNamed(o: Oracle) returns (ok: bool, ghost added: Bytes)
      requires Valid() && log.Some? && AllOn(log.value) && rotating.None?
      modifies this`log, this`rotating, this`contents, this`written, this`table, this`nextFd, this`compressRequested
      ensures Valid() && log.Some? && AllOn(log.value) && Others(old(table)) && written == old(written) + added
      ensures ok ==> rotating == old(log) && log.value >= |old(contents)|
      ensures ok ==> contents[rotating.value] + contents[log.value] == old(contents[log.value]) + added
      ensures !ok ==> log == old(log) && rotating == None && contents[log.value] == old(contents[log.value]) + added
      ensures |contents| >= |old(contents)|
      ensures forall i :: 0 <= i < |old(contents)| && i != old(log.value) ==> contents[i] == old(contents)[i]
      ensures ok <==>
        o.opens && (forall i :: 0 <= i < |fds| ==> o.dups(i)) && (forall i :: 0 <= i < |fds| ==> o.dup2s(i))
      ensures compressRequested <==> old(compressRequested) || ok
    {
      var inode := log.value;
      assert table[fds[writer]] == inode;
      rotating, log := log, None;
      Append(o.between(0));
      added := o.between(0);
      if !o.opens {
        log, rotating := rotating, None;
        return false, added;
      }
      ghost var early := added;
      ok, added := RotateOpened(o, inode);
      JoinWritten(old(contents)[inode], early, added);
      added := early + added;
    }

    /** The end of a compression: the name .rotating is removed. */
    method RemoveRotated()
      requires Valid()
      modifies this`rotating
      ensures Valid() && rotating == None
    {
      rotating := None;
    }

    ghost predicate AllSucceed(o: Oracle) {
      && o.stats && o.renames && o.opens
      && (forall i :: 0 <= i < |fds| ==> o.dups(i)) && (forall i :: 0 <= i < |fds| ==> o.dup2s(i))
    }

    /** rotate once the fresh pdx.log was created: commit, or put the old file's name back. */
    method RotateOpened(o: Oracle, inode: Inode) returns (ok: bool, ghost added: Bytes)
      requires Valid() && log.None? && rotating == Some(inode) && AllOn(inode)
      modifies this`log, this`rotating, this`contents, this`written, this`table, this`nextFd, this`compressRequested
      ensures Valid() && log.Some? && AllOn(log.value) && Others(old(table)) && written == old(written) + added
      ensures ok ==> rotating == Some(inode) && log.value >= |old(contents)|
      ensures ok ==> contents[inode] + contents[log.value] == old(contents[inode]) + added
      ensures !ok ==> log == Some(inode) && rotating == None && contents[inode] == old(contents[inode]) + added
      ensures |contents| >= |old(contents)|
      ensures forall i :: 0 <= i < |old(contents)| && i != inode ==> contents[i] == old(contents)[i]
      ensures ok <==> (forall i :: 0 <= i < |fds| ==> o.dups(i)) && (forall i :: 0 <= i < |fds| ==> o.dup2s(i))
      ensures compressRequested <==> old(compressRequested) || ok
    {
      var newFile := |contents|;
      contents := contents + [[]];
      log := Some(newFile);
      ghost var toOld, toNew;
      ok, toOld, toNew := Commit(o, newFile, inode);
      added := toOld + toNew;
      JoinWritten(old(contents)[inode], toOld, toNew);
      if ok {
        compressRequested := true;
        assert contents[newFile] == [] + toNew;
      } else {
        log, rotating := rotating, None;
      }
    }
  }

  lemma JoinWritten(a: Bytes, b: Bytes, c: Bytes)
    ensures a + b + c == a + (b + c)
  {
  }
}
