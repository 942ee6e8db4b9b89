/** `TransactionContext`: builds the PHR list on first request and hands back the same list
    for the rest of the transaction. */
module PhrContext {
  import opened Results
  import opened Ledger
  import opened PhrList

  /** A transaction context. `id` stands for its identity (what the list is bound to);
      `phrList` is the cached list, unset until first asked for. */
  datatype Context = Context(id: nat, phrList: Option<PHRList>)

  /** `GetPHRList`: the cached list if there is one; otherwise a new list for this context,
      which is cached. Returns the list and the context after the call. */
  function GetPHRList(tc: Context): (r: (PHRList, Context))
    ensures r.1.id == tc.id && r.1.phrList == Some(r.0)
    ensures tc.phrList.Some? ==> r.0 == tc.phrList.value && r.1 == tc
    ensures tc.phrList.None? ==> r.0 == NewList(tc.id)
    ensures tc.phrList.None? ==> r.0.stateList.name == ListName && r.0.stateList.ctx == tc.id
  {
    if tc.phrList.Some? then (tc.phrList.value, tc)
    else
      var l := NewList(tc.id);
      (l, tc.(phrList := Some(l)))
  }

  /** A context whose cached list, if any, decodes records as PHRs. Every list this core
      builds does; a context pre-loaded with some other list need not. */
  ghost predicate Sound(tc: Context)
  {
    tc.phrList.Some? ==> DecodesAsPHR(tc.phrList.value.stateList)
  }

  lemma GetPHRListSound(tc: Context)
    requires Sound(tc)
    ensures DecodesAsPHR(GetPHRList(tc).0.stateList)
    ensures Sound(GetPHRList(tc).1)
  {
  }

  /** The context after `k` calls of `GetPHRList`. */
  function AfterCalls(tc: Context, k: nat): Context
    decreases k
  {
    if k == 0 then tc else AfterCalls(GetPHRList(tc).1, k - 1)
  }

  /** After the first call the cache is set, and every later call returns the list the first
      call returned, leaving the context as the first call left it. */
  lemma {:induction false} GetPHRListIdempotent(tc: Context, k: nat)
    requires k >= 1
    ensures AfterCalls(tc, k) == GetPHRList(tc).1
    ensures GetPHRList(AfterCalls(tc, k)).0 == GetPHRList(tc).0
    decreases k
  {
    var tc1 := GetPHRList(tc).1;
    if k > 1 {
      GetPHRListIdempotent(tc1, k - 1);
      assert GetPHRList(tc1) == (GetPHRList(tc).0, tc1);
    }
  }
}
