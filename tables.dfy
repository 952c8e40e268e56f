/** What both tables share: rows keyed by `tg_id` (the primary key) and the
    order in which a full scan returns them (insertion order here; SQL leaves
    it unspecified). */
module Tables {

  /** No key is listed twice. */
  predicate Distinct(s: seq<int>) {
    forall i, j :: 0 <= i < j < |s| ==> s[i] != s[j]
  }

  /** `order` lists exactly the keys of `rows`, each once. */
  ghost predicate Indexed<V>(rows: map<int, V>, order: seq<int>) {
    && Distinct(order)
    && (forall k :: k in rows <==> k in order)
  }

  /** Inserting a fresh key at the end of the scan keeps the index. */
  lemma IndexedInsert<V>(rows: map<int, V>, order: seq<int>, k: int, v: V)
    requires Indexed(rows, order) && k !in rows
    ensures Indexed(rows[k := v], order + [k])
  {
  }

  /** The keys of `s` without repeats, each at its first position. */
  function Dedup(s: seq<int>): (d: seq<int>)
    ensures Distinct(d)
    ensures forall x :: x in d <==> x in s
    decreases |s|
  {
    if |s| == 0 then []
    else
      var rest := Dedup(s[..|s| - 1]);
      if s[|s| - 1] in rest then rest else rest + [s[|s| - 1]]
  }
}
