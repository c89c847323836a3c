/** `SecureDataEntity`: the access list an entity carries, a map from reader
    id to that reader's RLS entry, updated in place by `addReader`. */
module Security {
  import opened Common

  /** An RLS entry: the reader and its flags. */
  datatype Rls = Rls(reader: UserId, canEdit: bool, canDelete: bool)

  /** Every entry is stored under its own reader's id. */
  ghost predicate KeyedByReader(m: map<UserId, Rls>) {
    forall k :: k in m ==> m[k].reader == k
  }

  /** The reader ids of a sequence of entries. */
  function ReaderIds(adds: seq<Rls>): set<UserId> {
    set i | 0 <= i < |adds| :: adds[i].reader
  }

  /** The entries of the map (`readers.values()`). */
  function ValuesOf(m: map<UserId, Rls>): set<Rls> {
    set k | k in m :: m[k]
  }

  /** The map after adding `adds` one after another with `addReader`. */
  function AfterAdds(m: map<UserId, Rls>, adds: seq<Rls>): map<UserId, Rls>
  {
    if adds == [] then m
    else
      var last := adds[|adds| - 1];
      AfterAdds(m, adds[..|adds| - 1])[last.reader := last]
  }

  class SecureDataEntity {
    var readers: map<UserId, Rls>
    /** The entries added so far, in order. */
    ghost var added: seq<Rls>

    ghost predicate Valid()
      reads this
    {
      readers == AfterAdds(map[], added)
    }

    constructor ()
      ensures Valid() && readers == map[] && added == []
    {
      readers := map[];
      added := [];
    }

    /** `getReaders()`: the map's values, one entry per distinct reader id
        ever added. */
    function GetReaders(): (r: set<Rls>)
      requires Valid()
      reads this
      ensures |r| == |readers| == |ReaderIds(added)|
      ensures forall x :: x in r <==> x.reader in readers && readers[x.reader] == x
    {
      AfterAddsKeys(map[], added);
      ReaderCountAfterAdds(added);
      ValuesOf(readers)
    }

    /** `addReader(reader)`: puts the entry under its reader's id and returns
        the entity itself. */
    method AddReader(reader: Rls) returns (self: SecureDataEntity)
      requires Valid()
      modifies this
      ensures Valid()
      ensures self == this
      ensures added == old(added) + [reader]
      ensures readers == old(readers)[reader.reader := reader]
    {
      readers := readers[reader.reader := reader];
      added := added + [reader];
      assert added[..|added| - 1] == old(added);
      self := this;
    }
  }

  /** One `put` grows the values exactly when it grows the keys. */
  lemma PutCount(m: map<UserId, Rls>, x: Rls)
    requires KeyedByReader(m)
    ensures |ValuesOf(m[x.reader := x])| - |ValuesOf(m)| == |m[x.reader := x].Keys| - |m.Keys|
  {
    if x.reader in m {
      assert m[x.reader := x].Keys == m.Keys;
      PutOverwrites(m, x);
    } else {
      assert m[x.reader := x].Keys == m.Keys + {x.reader};
      PutAdds(m, x);
    }
  }

  /** Overwriting a reader's entry swaps one value for another. */
  lemma PutOverwrites(m: map<UserId, Rls>, x: Rls)
    requires KeyedByReader(m) && x.reader in m
    ensures |ValuesOf(m[x.reader := x])| == |ValuesOf(m)|
  {
    var k := x.reader;
    var m' := m[k := x];
    var others := ValuesOf(m) - {m[k]};
    assert m[k] in ValuesOf(m);
    forall v | v in ValuesOf(m') ensures v in others + {x} {
      var k' :| k' in m' && m'[k'] == v;
      if k' != k {
        assert m[k'] == v && v.reader == k' && v in ValuesOf(m);
      }
    }
    forall v | v in others ensures v in ValuesOf(m') && v != x {
      var k' :| k' in m && m[k'] == v;
      assert k' != k && m'[k'] == v;
    }
    assert m'[k] in ValuesOf(m');
    assert ValuesOf(m') == others + {x};
  }

  /** Adding a new reader adds one new value. */
  lemma PutAdds(m: map<UserId, Rls>, x: Rls)
    requires KeyedByReader(m) && x.reader !in m
    ensures |ValuesOf(m[x.reader := x])| == |ValuesOf(m)| + 1
  {
    var k := x.reader;
    var m' := m[k := x];
    forall v | v in ValuesOf(m') ensures v in ValuesOf(m) + {x} {
      var k' :| k' in m' && m'[k'] == v;
      if k' != k {
        assert m[k'] == v;
      }
    }
    forall v | v in ValuesOf(m) ensures v in ValuesOf(m') && v != x {
      var k' :| k' in m && m[k'] == v;
      assert m'[k'] == v;
    }
    assert m'[k] in ValuesOf(m');
    assert ValuesOf(m') == ValuesOf(m) + {x};
  }

  /** Adding entries keeps the map keyed by reader and adds exactly their ids. */
  lemma {:induction false} AfterAddsKeys(m: map<UserId, Rls>, adds: seq<Rls>)
    requires KeyedByReader(m)
    ensures KeyedByReader(AfterAdds(m, adds))
    ensures AfterAdds(m, adds).Keys == m.Keys + ReaderIds(adds)
  {
    if adds != [] {
      var init := adds[..|adds| - 1];
      AfterAddsKeys(m, init);
      assert ReaderIds(adds) == ReaderIds(init) + {adds[|adds| - 1].reader} by {
        forall x | x in ReaderIds(adds) ensures x in ReaderIds(init) + {adds[|adds| - 1].reader} {
          var i :| 0 <= i < |adds| && adds[i].reader == x;
          if i < |adds| - 1 {
            assert init[i] == adds[i];
          }
        }
        forall x | x in ReaderIds(init) ensures x in ReaderIds(adds) {
          var i :| 0 <= i < |init| && init[i].reader == x;
          assert adds[i] == init[i];
        }
      }
    }
  }

  /** Last writer wins: the entry for a reader is the last one added for it. */
  lemma {:induction false} LastWriterWins(m: map<UserId, Rls>, adds: seq<Rls>, i: nat)
    requires i < |adds|
    requires forall j :: i < j < |adds| ==> adds[j].reader != adds[i].reader
    ensures adds[i].reader in AfterAdds(m, adds) && AfterAdds(m, adds)[adds[i].reader] == adds[i]
  {
    if i < |adds| - 1 {
      var init := adds[..|adds| - 1];
      assert init[i] == adds[i];
      LastWriterWins(m, init, i);
    }
  }

  /** A reader none of `adds` names keeps its original entry. */
  lemma {:induction false} OthersUnchanged(m: map<UserId, Rls>, adds: seq<Rls>, k: UserId)
    requires forall j :: 0 <= j < |adds| ==> adds[j].reader != k
    ensures k in AfterAdds(m, adds) <==> k in m
    ensures k in m ==> AfterAdds(m, adds)[k] == m[k]
  {
    if adds != [] {
      OthersUnchanged(m, adds[..|adds| - 1], k);
    }
  }

  /** Starting from an empty list, the number of entries is the number of
      distinct reader ids added. */
  lemma {:induction false} ReaderCountAfterAdds(adds: seq<Rls>)
    ensures |ValuesOf(AfterAdds(map[], adds))| == |AfterAdds(map[], adds).Keys| == |ReaderIds(adds)|
  {
    AfterAddsKeys(map[], adds);
    if adds != [] {
      var init := adds[..|adds| - 1];
      ReaderCountAfterAdds(init);
      AfterAddsKeys(map[], init);
      PutCount(AfterAdds(map[], init), adds[|adds| - 1]);
    }
  }
}
