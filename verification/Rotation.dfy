/** Backup rotation of the file handler over the directory that holds its files. */
module Rotation {
  import opened Wrappers
  import opened AsyncHandler

  /** File 0 is the active log file, file i the backup with suffix ".i". */
  type Directory = map<nat, seq<Byte>>

  function File(d: Directory, i: nat): Option<seq<Byte>> {
    if i in d then Some(d[i]) else None
  }

  /** POSIX rename: a missing source is an error and changes nothing. */
  function Rename(d: Directory, from: nat, to: nat): (r: Directory)
    requires from != to
    ensures forall j: nat :: File(r, j) == (if from !in d then File(d, j)
                                            else if j == to then File(d, from)
                                            else if j == from then None
                                            else File(d, j))
  {
    if from in d then d[to := d[from]] - {from} else d
  }

  /** What is found under suffix j once the renames are done. */
  function Shifted(d: Directory, max: int, j: nat): Option<seq<Byte>> {
    if max <= 0 || j > max then File(d, j)
    else if j == 0 then None
    else if j < max then File(d, j - 1)
    else if j - 1 in d then File(d, j - 1)
    else File(d, j)
  }

  /** The rename loop, top suffix first. */
  method ShiftBackups(d: Directory, max: int) returns (r: Directory)
    ensures forall j: nat :: File(r, j) == Shifted(d, max, j)
    ensures forall j: nat | j > max :: File(r, j) == File(d, j)
    ensures max <= 0 ==> r == d
    ensures max > 0 ==> 0 !in r && (0 in d || max > 1 ==> File(r, 1) == File(d, 0))
    ensures forall j: nat | 2 <= j < max :: File(r, j) == File(d, j - 1)
    ensures max >= 2 ==> File(r, max) == if max - 1 in d then Some(d[max - 1]) else File(d, max)
  {
    r := d;
    var i := max - 1;
    while i >= 1
      invariant i <= max - 1 && (max <= 0 ==> r == d)
      invariant max >= 1 ==> 0 <= i
      invariant forall j: nat | j <= i || j > max || i == max - 1 :: File(r, j) == File(d, j)
      invariant forall j: nat | j == i + 1 < max :: File(r, j) == None
      invariant forall j: nat | i + 1 < j <= max :: File(r, j) == Shifted(d, max, j)
    {
      r := Rename(r, i, i + 1);
      i := i - 1;
    }
    if max > 0 {
      r := Rename(r, 0, 1);
    }
  }

  // -------------------------------------------------------------------- the chain

  /** `closed` lists every file closed so far, oldest first; the directory keeps the
      newest ones as a contiguous run of backups starting at suffix 1. */
  ghost predicate Chain(d: Directory, max: int, closed: seq<seq<Byte>>) {
    forall j: nat | j >= 1 ::
      File(d, j) == if j <= max && j <= |closed| then Some(closed[|closed| - j]) else None
  }

  /** One rotation moves the chain on by one: the i-th backup is the i-th last closed file. */
  lemma RotationKeepsChain(d: Directory, r: Directory, max: int, closed: seq<seq<Byte>>)
    requires Chain(d, max, closed) && 0 in d
    requires forall j: nat | j >= 1 :: File(r, j) == Shifted(d, max, j)
    ensures Chain(r, max, closed + [d[0]])
  {
    forall j: nat | j >= 1
      ensures File(r, j) == if j <= max && j <= |closed| + 1 then Some((closed + [d[0]])[|closed| + 1 - j]) else None
    {
      if j == max && 2 <= j {
        assert File(d, j - 1) == if j - 1 <= |closed| then Some(closed[|closed| - (j - 1)]) else None;
        assert File(d, j) == if j <= |closed| then Some(closed[|closed| - j]) else None;
      } else if 2 <= j < max {
        assert File(d, j - 1) == if j - 1 <= |closed| then Some(closed[|closed| - (j - 1)]) else None;
      }
    }
  }

  /** Whatever else the directory held at first, with gaps or not: the files closed since then
      are the backups 1, 2, ..., newest first, as far as max reaches. */
  ghost predicate Newest(d: Directory, max: int, closed: seq<seq<Byte>>) {
    forall j: nat | 1 <= j <= max && j <= |closed| :: File(d, j) == Some(closed[|closed| - j])
  }

  lemma RotationKeepsNewest(d: Directory, r: Directory, max: int, closed: seq<seq<Byte>>)
    requires Newest(d, max, closed) && 0 in d
    requires forall j: nat | j >= 1 :: File(r, j) == Shifted(d, max, j)
    ensures Newest(r, max, closed + [d[0]])
  {
    forall j: nat | 1 <= j <= max && j <= |closed| + 1
      ensures File(r, j) == Some((closed + [d[0]])[|closed| + 1 - j])
    {
      if j >= 2 {
        assert File(d, j - 1) == Some(closed[|closed| - (j - 1)]);
      }
    }
  }

  lemma ChainIsNewest(d: Directory, max: int, closed: seq<seq<Byte>>)
    requires Chain(d, max, closed)
    ensures Newest(d, max, closed)
  {
  }

  function Concat(files: seq<seq<Byte>>): seq<Byte> {
    if files == [] then [] else files[0] + Concat(files[1..])
  }

  lemma {:induction false} ConcatAppend(a: seq<seq<Byte>>, b: seq<seq<Byte>>)
    ensures Concat(a + b) == Concat(a) + Concat(b)
  {
    if a == [] {
      assert a + b == b;
    } else {
      assert (a + b)[1..] == a[1..] + b;
      ConcatAppend(a[1..], b);
    }
  }

  /** Backups m, m-1, ..., 1 one after the other. */
  function Backups(d: Directory, m: nat): seq<Byte>
    requires forall j: nat | 1 <= j <= m :: j in d
  {
    if m == 0 then [] else d[m] + Backups(d, m - 1)
  }

  function Kept(max: int, closed: seq<seq<Byte>>): nat {
    if max <= 0 then 0 else if |closed| < max then |closed| else max
  }

  lemma {:induction false} BackupsAreNewest(d: Directory, max: int, closed: seq<seq<Byte>>, m: nat)
    requires Newest(d, max, closed) && m <= Kept(max, closed)
    ensures forall j: nat | 1 <= j <= m :: j in d
    ensures Backups(d, m) == Concat(closed[|closed| - m..])
  {
    forall j: nat | 1 <= j <= m ensures j in d {
      assert File(d, j) == Some(closed[|closed| - j]);
    }
    if m > 0 {
      BackupsAreNewest(d, max, closed, m - 1);
      assert File(d, m) == Some(closed[|closed| - m]);
      assert closed[|closed| - m..][1..] == closed[|closed| - (m - 1)..];
    }
  }

  /** At most max backups exist, and oldest backup to active file is a suffix of everything
      ever written: rotation drops whole files from the old end and nothing else. */
  lemma ChainIsSuffix(d: Directory, max: int, closed: seq<seq<Byte>>)
    requires Chain(d, max, closed) && 0 in d
    ensures forall j: nat | j >= 1 && j in d :: j <= Kept(max, closed)
    ensures forall j: nat | 1 <= j <= Kept(max, closed) :: j in d
    ensures Concat(closed) + d[0]
         == Concat(closed[..|closed| - Kept(max, closed)]) + (Backups(d, Kept(max, closed)) + d[0])
  {
    var m := Kept(max, closed);
    NoneBeyond(d, max, closed);
    ChainIsNewest(d, max, closed);
    BackupsAreNewest(d, max, closed, m);
    SplitStream(closed, |closed| - m, d[0]);
  }

  lemma SplitStream(files: seq<seq<Byte>>, k: nat, rest: seq<Byte>)
    requires k <= |files|
    ensures Concat(files) + rest == Concat(files[..k]) + (Concat(files[k..]) + rest)
  {
    ConcatAppend(files[..k], files[k..]);
    assert files[..k] + files[k..] == files;
    Associative(Concat(files[..k]), Concat(files[k..]), rest);
  }

  lemma Associative<T>(a: seq<T>, b: seq<T>, c: seq<T>)
    ensures (a + b) + c == a + (b + c)
  {
  }

  lemma NoneBeyond(d: Directory, max: int, closed: seq<seq<Byte>>)
    requires Chain(d, max, closed)
    ensures forall j: nat | j >= 1 && j in d :: j <= Kept(max, closed)
  {
    forall j: nat | j >= 1 && j in d ensures j <= Kept(max, closed) {
      assert File(d, j).Some?;
    }
  }
}
