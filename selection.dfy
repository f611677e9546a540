/** download_last's choice of file: sort the listing by creation time with
    a stable sort, then take the final element. */
module Selection {
  import opened Api

  ghost predicate SortedByCre(s: seq<MediaFile>)
  {
    forall i, j :: 0 <= i < j < |s| ==> s[i].cre <= s[j].cre
  }

  /** The entries of `s` whose creation time is `c`, in their order in `s`. */
  function WithCre(s: seq<MediaFile>, c: int): seq<MediaFile>
  {
    if s == [] then []
    else WithCre(s[..|s| - 1], c) + (if s[|s| - 1].cre == c then [s[|s| - 1]] else [])
  }

  /** Places `f` after every trailing entry of `t` whose creation time is at
      most `f`'s, which is where a stable sort puts a later equal key. */
  function InsertByCre(f: MediaFile, t: seq<MediaFile>): (r: seq<MediaFile>)
    ensures |r| == |t| + 1
  {
    if t == [] || t[|t| - 1].cre <= f.cre then t + [f]
    else
      var init := t[..|t| - 1];
      assert t == init + [t[|t| - 1]];
      InsertByCre(f, init) + [t[|t| - 1]]
  }

  /** Python's sorted(fs, key=lambda f: f['cre']), as an insertion sort that
      inserts the entries in listing order. */
  function SortByCre(fs: seq<MediaFile>): (r: seq<MediaFile>)
    ensures |r| == |fs|
  {
    if fs == [] then []
    else
      assert fs == fs[..|fs| - 1] + [fs[|fs| - 1]];
      InsertByCre(fs[|fs| - 1], SortByCre(fs[..|fs| - 1]))
  }

  /** sorted(files, key=cre)[-1]: an empty listing is an IndexError. */
  function PickLast(fs: seq<MediaFile>): (r: Result<MediaFile>)
    ensures r.Err? <==> fs == []
    ensures r.Err? ==> r.error == IndexError
  {
    if fs == [] then Err(IndexError) else Ok(SortByCre(fs)[|fs| - 1])
  }

  // ----------------------------------------------------------- permutation

  lemma {:induction false} InsertByCrePermutes(f: MediaFile, t: seq<MediaFile>)
    ensures multiset(InsertByCre(f, t)) == multiset(t) + multiset{f}
  {
    if t != [] && f.cre < t[|t| - 1].cre {
      var init := t[..|t| - 1];
      assert t == init + [t[|t| - 1]];
      InsertByCrePermutes(f, init);
    }
  }

  /** The sort neither loses nor invents a file. */
  lemma {:induction false} SortByCrePermutes(fs: seq<MediaFile>)
    ensures multiset(SortByCre(fs)) == multiset(fs)
  {
    if fs != [] {
      var init := fs[..|fs| - 1];
      assert fs == init + [fs[|fs| - 1]];
      SortByCrePermutes(init);
      InsertByCrePermutes(fs[|fs| - 1], SortByCre(init));
    }
  }

  // ------------------------------------------------------------ sortedness

  lemma {:induction false} InsertKeepsSorted(f: MediaFile, t: seq<MediaFile>)
    requires SortedByCre(t)
    ensures SortedByCre(InsertByCre(f, t))
  {
    if t == [] || t[|t| - 1].cre <= f.cre {
    } else {
      var init, y := t[..|t| - 1], t[|t| - 1];
      var front := InsertByCre(f, init);
      InsertKeepsSorted(f, init);
      InsertByCrePermutes(f, init);
      forall i | 0 <= i < |front| ensures front[i].cre <= y.cre {
        assert front[i] in multiset(init) + multiset{f};
        if front[i] in init {
          var k :| 0 <= k < |init| && init[k] == front[i];
          assert t[k] == init[k];
        }
      }
    }
  }

  /** The sort's output is ordered by creation time. */
  lemma {:induction false} SortByCreIsSorted(fs: seq<MediaFile>)
    ensures SortedByCre(SortByCre(fs))
  {
    if fs != [] {
      SortByCreIsSorted(fs[..|fs| - 1]);
      InsertKeepsSorted(fs[|fs| - 1], SortByCre(fs[..|fs| - 1]));
    }
  }

  // ------------------------------------------------------------- stability

  lemma {:induction false} WithCreAppend(a: seq<MediaFile>, b: seq<MediaFile>, c: int)
    ensures WithCre(a + b, c) == WithCre(a, c) + WithCre(b, c)
  {
    if b != [] {
      var init := b[..|b| - 1];
      assert (a + b)[..|a + b| - 1] == a + init;
      WithCreAppend(a, init, c);
    } else {
      assert a + b == a;
    }
  }

  lemma {:induction false} InsertKeepsOrder(f: MediaFile, t: seq<MediaFile>, c: int)
    ensures WithCre(InsertByCre(f, t), c) == WithCre(t, c) + WithCre([f], c)
  {
    if t == [] || t[|t| - 1].cre <= f.cre {
      WithCreAppend(t, [f], c);
    } else {
      var init, y := t[..|t| - 1], t[|t| - 1];
      var wf, wy := WithCre([f], c), WithCre([y], c);
      assert t == init + [y];
      WithCreAppend(InsertByCre(f, init), [y], c);
      InsertKeepsOrder(f, init, c);
      WithCreAppend(init, [y], c);
      // f and y have different creation times, so at most one of them is kept
      assert wf + wy == wy + wf by {
        assert [f][..0] == [] && [y][..0] == [];
        assert wf == [] || wy == [];
      }
      calc {
        WithCre(InsertByCre(f, t), c);
        WithCre(InsertByCre(f, init), c) + wy;
        (WithCre(init, c) + wf) + wy;
        WithCre(init, c) + (wy + wf);
        (WithCre(init, c) + wy) + wf;
        WithCre(t, c) + wf;
      }
    }
  }

  /** The sort is stable: for every creation time, the entries that share it
      keep their listing order. */
  lemma {:induction false} SortByCreIsStable(fs: seq<MediaFile>, c: int)
    ensures WithCre(SortByCre(fs), c) == WithCre(fs, c)
  {
    if fs != [] {
      var init, x := fs[..|fs| - 1], fs[|fs| - 1];
      SortByCreIsStable(init, c);
      InsertKeepsOrder(x, SortByCre(init), c);
      WithCreAppend(init, [x], c);
      assert init + [x] == fs;
      assert WithCre([], c) == [];
    }
  }

  /** An entry kept by `WithCre` occurs in the listing with that time. */
  lemma {:induction false} WithCreMember(s: seq<MediaFile>, c: int)
    requires WithCre(s, c) != []
    ensures exists i :: 0 <= i < |s| && s[i].cre == c
  {
    var init := s[..|s| - 1];
    if s[|s| - 1].cre != c {
      WithCreMember(init, c);
      var i :| 0 <= i < |init| && init[i].cre == c;
      assert s[i] == init[i];
    }
  }

  lemma LastIsKept(s: seq<MediaFile>)
    ensures s != [] ==> WithCre(s, s[|s| - 1].cre) != []
  {
  }

  /** A stable ordering by creation time is unique: two sorted sequences
      that agree on the order of every group of equal times are equal. */
  lemma {:induction false} StableOrderIsUnique(a: seq<MediaFile>, b: seq<MediaFile>)
    requires SortedByCre(a) && SortedByCre(b)
    requires forall c :: WithCre(a, c) == WithCre(b, c)
    ensures a == b
  {
    // an empty sequence agrees only with an empty one
    var ca := if a == [] then 0 else a[|a| - 1].cre;
    var cb := if b == [] then 0 else b[|b| - 1].cre;
    LastIsKept(a);
    LastIsKept(b);
    assert WithCre(a, ca) == WithCre(b, ca) && WithCre(a, cb) == WithCre(b, cb);
    assert a == [] <==> b == [];
    if a != [] {
      var ia, x := a[..|a| - 1], a[|a| - 1];
      var ib, y := b[..|b| - 1], b[|b| - 1];
      assert WithCre(b, x.cre) == WithCre(a, x.cre) != [];
      WithCreMember(b, x.cre);
      assert WithCre(a, y.cre) == WithCre(b, y.cre) != [];
      WithCreMember(a, y.cre);
      assert x.cre == y.cre;
      assert x == WithCre(a, x.cre)[|WithCre(a, x.cre)| - 1] == y;
      forall c ensures WithCre(ia, c) == WithCre(ib, c) {
        var tail := if x.cre == c then [x] else [];
        assert WithCre(a, c) == WithCre(ia, c) + tail;
        assert WithCre(b, c) == WithCre(ib, c) + tail;
        assert WithCre(ia, c) == (WithCre(ia, c) + tail)[..|WithCre(ia, c)|];
      }
      StableOrderIsUnique(ia, ib);
      assert a == ia + [x] && b == ib + [y];
    }
  }

  /** SortByCre is Python's sorted: any ordering of the listing by creation
      time that keeps equal times in listing order, as a stable sort does, is
      exactly SortByCre's output. */
  lemma SortByCreIsTheStableSort(fs: seq<MediaFile>, r: seq<MediaFile>)
    requires SortedByCre(r)
    requires forall c :: WithCre(r, c) == WithCre(fs, c)
    ensures r == SortByCre(fs)
  {
    SortByCreIsSorted(fs);
    forall c ensures WithCre(r, c) == WithCre(SortByCre(fs), c) {
      SortByCreIsStable(fs, c);
    }
    StableOrderIsUnique(r, SortByCre(fs));
  }

  // ------------------------------------------------------------- selection

  /** The entry at `k` has the greatest creation time, and every later entry
      has a strictly smaller one: `k` is the last of the maxima. */
  ghost predicate IsLastMaximum(fs: seq<MediaFile>, k: int)
  {
    && 0 <= k < |fs|
    && (forall i :: 0 <= i < |fs| ==> fs[i].cre <= fs[k].cre)
    && (forall i :: k < i < |fs| ==> fs[i].cre < fs[k].cre)
  }

  /** The selected file belongs to the listing and none is newer. */
  lemma PickLastIsMaximum(fs: seq<MediaFile>)
    requires fs != []
    ensures PickLast(fs).Ok? && PickLast(fs).value in fs
    ensures forall i :: 0 <= i < |fs| ==> fs[i].cre <= PickLast(fs).value.cre
  {
    var s := SortByCre(fs);
    SortByCreIsSorted(fs);
    SortByCrePermutes(fs);
    assert s[|s| - 1] in multiset(fs);
    forall i | 0 <= i < |fs| ensures fs[i].cre <= s[|s| - 1].cre {
      assert fs[i] in multiset(s);
      var j :| 0 <= j < |s| && s[j] == fs[i];
    }
  }

  /** Among several files with the greatest creation time, the selected one
      is the last of them in listing order. */
  lemma {:induction false} PickLastIsLastMaximum(fs: seq<MediaFile>, k: int)
    requires IsLastMaximum(fs, k)
    ensures PickLast(fs) == Ok(fs[k])
  {
    var init, x := fs[..|fs| - 1], fs[|fs| - 1];
    if init == [] {
      assert SortByCre(fs) == [x];
    } else {
      var prev := SortByCre(init)[|init| - 1];
      if k == |fs| - 1 {
        PickLastIsMaximum(init);
        assert prev in fs;
      } else {
        assert IsLastMaximum(init, k);
        PickLastIsLastMaximum(init, k);
        assert prev == fs[k];
      }
    }
  }

  /** Every non-empty listing has a last maximum. */
  lemma {:induction false} LastMaximumExists(fs: seq<MediaFile>)
    requires fs != []
    ensures exists k :: IsLastMaximum(fs, k)
  {
    var init, x := fs[..|fs| - 1], fs[|fs| - 1];
    if init == [] {
      assert IsLastMaximum(fs, 0);
    } else {
      LastMaximumExists(init);
      var k :| IsLastMaximum(init, k);
      if fs[k].cre <= x.cre {
        assert IsLastMaximum(fs, |fs| - 1);
      } else {
        assert IsLastMaximum(fs, k);
      }
    }
  }

  /** A listing of two files, the second newer: the second is chosen. */
  lemma NewerFileChosen()
    ensures PickLast([MediaFile("A.JPG", 10), MediaFile("B.JPG", 20)]) == Ok(MediaFile("B.JPG", 20))
  {
    PickLastIsLastMaximum([MediaFile("A.JPG", 10), MediaFile("B.JPG", 20)], 1);
  }

  /** Two files created at the same time: the one listed last is chosen. */
  lemma TieGoesToLastListed()
    ensures PickLast([MediaFile("B.JPG", 20), MediaFile("A.JPG", 20)]) == Ok(MediaFile("A.JPG", 20))
  {
    PickLastIsLastMaximum([MediaFile("B.JPG", 20), MediaFile("A.JPG", 20)], 1);
  }
}
