module Sets {
  // Some element of a set that has any.
  method AnyOf(ids: set<int>) returns (id: int)
    requires ids != {}
    ensures id in ids
  {
    if forall i: int :: i !in ids {
      assert false;
    }
    id :| id in ids;
  }

  lemma OnlyOne(ids: set<int>, id: int)
    requires |ids| == 1 && id in ids
    ensures ids == {id}
  {
    assert |ids - {id}| == 0;
  }

  lemma SomeIn(ids: set<int>)
    requires ids != {}
    ensures exists id :: id in ids
  {
    if forall id: int :: id !in ids {
      assert false;
    }
  }

  lemma NoneIn(ids: set<int>)
    requires forall id: int :: id !in ids
    ensures ids == {}
  {
    if ids != {} {
      SomeIn(ids);
    }
  }
}
