/** The required-column check that runs before anything else. */
module Schema {
  import opened Seqs

  const RequiredColumns: seq<string> :=
    ["order_date", "customer_name", "product_name", "channel", "state", "revenue", "total_cost"]

  function Absent(columns: seq<string>): string -> bool
  {
    c => c !in columns
  }

  /** The required columns absent from the table: every one of them and
      nothing else, so the list is empty exactly when all seven are present. */
  function Missing(columns: seq<string>): (missing: seq<string>)
    ensures forall c :: c in missing <==> c in RequiredColumns && c !in columns
    ensures missing == [] <==> forall c :: c in RequiredColumns ==> c in columns
    ensures |missing| <= |RequiredColumns|
  {
    var missing := Filter(RequiredColumns, Absent(columns));
    FilterMembers(RequiredColumns, Absent(columns));
    if missing != [] then
      assert missing[0] in missing;
      missing
    else
      missing
  }

  /** The missing list follows the order of the required list: its k-th
      entry is the required column at the k-th absent position. */
  lemma MissingInOrder(columns: seq<string>)
    ensures var missing := Missing(columns);
            var idx := KeptIndices(RequiredColumns, Absent(columns));
            && |missing| == |idx|
            && (forall k :: 0 <= k < |idx| ==> missing[k] == RequiredColumns[idx[k]])
            && (forall k, l :: 0 <= k < l < |idx| ==> idx[k] < idx[l])
            && (forall i :: 0 <= i < |RequiredColumns| && RequiredColumns[i] !in columns ==> i in idx)
  {
  }
}
