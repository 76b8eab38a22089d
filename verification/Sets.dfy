module Sets {
  lemma Pick<T>(s: set<T>) returns (t: T)
    requires s != {}
    ensures t in s
  {
    t :| t in s;
  }

  lemma {:induction false} MaxExists(s: set<int>)
    requires s != {}
    ensures exists m :: m in s && forall i :: i in s ==> i <= m
  {
    var i := Pick(s);
    if s != {i} {
      MaxExists(s - {i});
      var m :| m in s - {i} && forall k :: k in s - {i} ==> k <= m;
      var top := if i > m then i else m;
      assert forall k :: k in s ==> k == i || k in s - {i};
      assert top in s && forall k :: k in s ==> k <= top;
    }
  }

  function Max(s: set<int>): (m: int)
    requires s != {}
    ensures m in s && forall i :: i in s ==> i <= m
  {
    MaxExists(s);
    var m :| m in s && forall i :: i in s ==> i <= m;
    m
  }
}
