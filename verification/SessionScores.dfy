/** Output keys "{uid}_{session}_{index}" and the grouping of rows by session
    (verl/verl/trainer/main_ppo_sync.py). */
module SessionScores {
  import opened Decimal
  import opened Prelude

  // -------------------------------------------------------------------- keys

  /** `f"{uid}_{session_id}_{i}"` */
  function OutputKey(uid: string, session: nat, index: nat): string {
    uid + "_" + Digits(session) + "_" + Digits(index)
  }

  /** Position of the last underscore; |s| when there is none. */
  function LastUnderscore(s: string): (n: nat)
    ensures n <= |s|
    ensures n < |s| ==> s[n] == '_' && forall i :: n < i < |s| ==> s[i] != '_'
    ensures n == |s| ==> '_' !in s
  {
    if s == "" then 0
    else if s[|s| - 1] == '_' then |s| - 1
    else
      var k := LastUnderscore(s[..|s| - 1]);
      if k < |s| - 1 then k else |s|
  }

  datatype KeyError = WrongFieldCount | NotANumber

  /** The fields of `key.rsplit("_", 2)`: uid, session, index. */
  datatype Fields = Fields(uid: string, session: string, index: nat)

  predicate IsNumeral(s: string) {
    s != "" && forall i :: 0 <= i < |s| ==> IsDigit(s[i])
  }

  /** The key split at its last two underscores. */
  function ParseKey(key: string): Result<Fields, KeyError> {
    var n := LastUnderscore(key);
    if n == |key| then Err(WrongFieldCount)
    else
      var m := LastUnderscore(key[..n]);
      if m == n then Err(WrongFieldCount)
      else if !IsNumeral(key[n + 1..]) then Err(NotANumber)
      else Ok(Fields(key[..m], key[m + 1..n], ReadDigits(key[n + 1..])))
  }

  lemma LastUnderscoreIs(key: string, n: nat)
    requires n < |key| && key[n] == '_' && forall i :: n < i < |key| ==> key[i] != '_'
    ensures LastUnderscore(key) == n
  {
  }

  /** Splitting at the last underscore undoes joining with one. */
  lemma SplitOfJoin(key: string, s: string, t: string)
    requires key == s + "_" + t && '_' !in t
    ensures |s| < |key| && LastUnderscore(key) == |s| && key[..|s|] == s && key[|s| + 1..] == t
  {
    var n := |s|;
    assert key[n] == '_' && key[..n] == s && key[n + 1..] == t;
    forall i | n < i < |key| ensures key[i] != '_' {
      assert key[i] == t[i - n - 1];
    }
    LastUnderscoreIs(key, n);
  }

  lemma NoUnderscore(n: nat)
    ensures '_' !in Digits(n) && IsNumeral(Digits(n))
  {
  }

  /** The key is a uid, a session and a numeral for the index, joined by underscores. */
  ghost predicate IsKeyOf(key: string, fields: Fields) {
    '_' !in fields.session &&
    exists t :: IsNumeral(t) && ReadDigits(t) == fields.index && key == fields.uid + "_" + fields.session + "_" + t
  }

  /** A key parses into these fields if and only if it is made of them. */
  lemma ParsesExactly(key: string, fields: Fields)
    ensures ParseKey(key) == Ok(fields) <==> IsKeyOf(key, fields)
  {
    if ParseKey(key) == Ok(fields) {
      var n := LastUnderscore(key);
      var m := LastUnderscore(key[..n]);
      var t := key[n + 1..];
      assert key == key[..n] + "_" + t && key[..n] == key[..m] + "_" + key[m + 1..n];
      assert '_' !in key[m + 1..n];
    }
    if IsKeyOf(key, fields) {
      var t :| IsNumeral(t) && ReadDigits(t) == fields.index && key == fields.uid + "_" + fields.session + "_" + t;
      JoinedParses(key, fields, t);
    }
  }

  lemma JoinedParses(key: string, fields: Fields, t: string)
    requires IsNumeral(t) && ReadDigits(t) == fields.index && '_' !in fields.session
    requires key == fields.uid + "_" + fields.session + "_" + t
    ensures ParseKey(key) == Ok(fields)
  {
    var front := fields.uid + "_" + fields.session;
    assert '_' !in t;
    SplitOfJoin(key, front, t);
    SplitOfJoin(front, fields.uid, fields.session);
    SlicesOfPrefix(key, |front|, |fields.uid|);
  }

  /** Parsing undoes formatting, whatever the uid contains. */
  lemma ParseUndoesFormat(uid: string, session: nat, index: nat)
    ensures ParseKey(OutputKey(uid, session, index)) == Ok(Fields(uid, Digits(session), index))
  {
    NoUnderscore(session);
    NoUnderscore(index);
    DigitsReadBack(index);
    JoinedParses(OutputKey(uid, session, index), Fields(uid, Digits(session), index), Digits(index));
  }

  lemma SlicesOfPrefix(key: string, n: nat, m: nat)
    requires m < n <= |key|
    ensures key[..m] == key[..n][..m] && key[m + 1..n] == key[..n][m + 1..]
  {
  }

  /** Different outputs have different keys. */
  lemma OutputKeysAreDistinct(uid: string, s: nat, i: nat, uid': string, s': nat, i': nat)
    ensures OutputKey(uid, s, i) == OutputKey(uid', s', i') ==> uid == uid' && s == s' && i == i'
  {
    ParseUndoesFormat(uid, s, i);
    ParseUndoesFormat(uid', s', i');
    DigitsReadBack(s);
    DigitsReadBack(s');
  }

  // ---------------------------------------------------------------- grouping

  /** A row of the batch: its session `f"{uid}_{session_id}"` and the index within it. */
  datatype Row = Row(session: string, index: nat)

  function RowOf(key: string): Result<Row, KeyError> {
    match ParseKey(key)
    case Err(e) => Err(e)
    case Ok(fields) => Ok(Row(fields.uid + "_" + fields.session, fields.index))
  }

  /** The rows of the first |rows| keys. */
  predicate RowsSoFar(keys: seq<string>, rows: seq<Row>) {
    |rows| <= |keys| && forall i :: 0 <= i < |rows| ==> RowOf(keys[i]) == Ok(rows[i])
  }

  predicate AreRows(keys: seq<string>, rows: seq<Row>) {
    |rows| == |keys| && RowsSoFar(keys, rows)
  }

  lemma OneMoreParsed(keys: seq<string>, rows: seq<Row>, row: Row)
    requires RowsSoFar(keys, rows) && |rows| < |keys| && RowOf(keys[|rows|]) == Ok(row)
    ensures RowsSoFar(keys, rows + [row])
  {
  }

  function SessionsOf(rows: seq<Row>): seq<string> {
    seq(|rows|, i requires 0 <= i < |rows| => rows[i].session)
  }

  /** Row r is the final one of its session: its index is largest, and it is the first row with
      that index. */
  predicate IsFinal(rows: seq<Row>, r: nat) {
    r < |rows| &&
    forall i :: 0 <= i < |rows| && rows[i].session == rows[r].session ==>
                  rows[i].index < rows[r].index || (rows[i].index == rows[r].index && r <= i)
  }

  /** `final_sessions`: every session seen, in order of appearance, with the index and row of its
      final row. */
  predicate FinalSessions(rows: seq<Row>, order: seq<string>, final: map<string, (nat, nat)>) {
    && (forall k :: 0 <= k < |order| ==> order[k] in final)
    && (forall k, k' :: 0 <= k < k' < |order| ==> order[k] != order[k'])
    && (forall s :: s in final ==> s in order && IsFinalOf(rows, s, final[s].0, final[s].1))
    && (forall i :: 0 <= i < |rows| ==> rows[i].session in final)
  }

  predicate IsFinalOf(rows: seq<Row>, session: string, index: nat, r: nat) {
    IsFinal(rows, r) && rows[r] == Row(session, index)
  }

  /** `final_sessions` after one more row. */
  function WithRow(order: seq<string>, final: map<string, (nat, nat)>, row: Row, i: nat): (seq<string>, map<string,
                   (nat, nat)>) {
    if row.session !in final then (order + [row.session], final[row.session := (row.index, i)])
    else if final[row.session].0 < row.index then (order, final[row.session := (row.index, i)])
    else (order, final)
  }

  lemma NewFinal(rows: seq<Row>, row: Row)
    requires forall i :: 0 <= i < |rows| && rows[i].session == row.session ==> rows[i].index < row.index
    ensures IsFinalOf(rows + [row], row.session, row.index, |rows|)
  {
  }

  lemma StillFinal(rows: seq<Row>, row: Row, session: string, index: nat, r: nat)
    requires IsFinalOf(rows, session, index, r) && (row.session == session ==> row.index <= index)
    ensures IsFinalOf(rows + [row], session, index, r)
  {
  }

  lemma WithRowKeeps(rows: seq<Row>, order: seq<string>, final: map<string, (nat, nat)>, row: Row)
    requires FinalSessions(rows, order, final)
    ensures var (order', final') := WithRow(order, final, row, |rows|); FinalSessions(rows + [row], order', final')
  {
    var (order', final') := WithRow(order, final, row, |rows|);
    forall s | s in final' ensures s in order' && IsFinalOf(rows + [row], s, final'[s].0, final'[s].1) {
      if final'[s] == (row.index, |rows|) && s == row.session {
        NewFinal(rows, row);
        assert order'[|order'| - 1] in order';
      } else {
        StillFinal(rows, row, s, final[s].0, final[s].1);
      }
    }
  }

  /** The fields of one key, and the session key made of them. */
  method ParseRow(key: string) returns (r: Result<Row, KeyError>)
    ensures r == RowOf(key)
  {
    var fields := ParseKey(key);
    r := if fields.Err? then Err(fields.error)
         else Ok(Row(fields.value.uid + "_" + fields.value.session, fields.value.index));
  }

  /** The update of `final_sessions` for row i. */
  method Record(order: seq<string>, final: map<string, (nat, nat)>, row: Row, i: nat, ghost rows: seq<Row>)
    returns (order': seq<string>, final': map<string, (nat, nat)>)
    requires i == |rows| && FinalSessions(rows, order, final)
    ensures (order', final') == WithRow(order, final, row, i) && FinalSessions(rows + [row], order', final')
  {
    WithRowKeeps(rows, order, final, row);
    order', final' := order, final;
    if row.session !in final {
      order' := order' + [row.session];
      final' := final'[row.session := (row.index, i)];
    } else if final[row.session].0 < row.index {
      final' := final'[row.session := (row.index, i)];
    }
  }

  /** What the first loop has found after some rows. */
  ghost predicate Found(keys: seq<string>, rows: seq<Row>, order: seq<string>, final: map<string, (nat, nat)>,
                        rowSessionKeys: seq<string>) {
    RowsSoFar(keys, rows) && FinalSessions(rows, order, final) && rowSessionKeys == SessionsOf(rows)
  }

  lemma SessionsOfSnoc(rows: seq<Row>, row: Row)
    ensures SessionsOf(rows + [row]) == SessionsOf(rows) + [row.session]
  {
  }

  /** One round of the first loop. */
  method NextRow(keys: seq<string>, order: seq<string>, final: map<string, (nat, nat)>, rowSessionKeys: seq<string>,
                 ghost rows: seq<Row>, i: nat)
    returns (r: Result<Row, KeyError>, order': seq<string>, final': map<string, (nat, nat)>,
             rowSessionKeys': seq<string>)
    requires i == |rows| < |keys| && Found(keys, rows, order, final, rowSessionKeys)
    ensures r == RowOf(keys[i])
    ensures r.Ok? ==> Found(keys, rows + [r.value], order', final', rowSessionKeys')
  {
    order', final', rowSessionKeys' := order, final, rowSessionKeys;
    r := ParseRow(keys[i]);
    if r.Ok? {
      OneMoreParsed(keys, rows, r.value);
      SessionsOfSnoc(rows, r.value);
      rowSessionKeys' := rowSessionKeys + [r.value.session];
      order', final' := Record(order, final, r.value, i, rows);
    }
  }

  /** The first loop of `compute_advantage_for_multi_trajectories`. */
  method FindFinalSessions(keys: seq<string>)
    returns (r: Result<(), KeyError>, order: seq<string>, final: map<string, (nat, nat)>, rowSessionKeys: seq<string>,
             ghost rows: seq<Row>)
    ensures r.Ok? <==> forall i :: 0 <= i < |keys| ==> RowOf(keys[i]).Ok?
    ensures r.Ok? ==> AreRows(keys, rows) && FinalSessions(rows, order, final) && rowSessionKeys == SessionsOf(rows)
  {
    order, final, rowSessionKeys, rows, r := [], map[], [], [], Ok(());
    var i := 0;
    while i < |keys|
      invariant i == |rows| <= |keys| && r == Ok(()) && Found(keys, rows, order, final, rowSessionKeys)
      decreases |keys| - i
    {
      var row;
      row, order, final, rowSessionKeys := NextRow(keys, order, final, rowSessionKeys, rows, i);
      if row.Err? {
        r := Err(row.error);
        return;
      }
      rows := rows + [row.value];
      i := i + 1;
    }
  }

  /** Each row is sent to the final row of its own session, and there is one per session. */
  predicate Scatters(rows: seq<Row>, finalIndices: seq<nat>, rowToLocalIndex: seq<nat>) {
    && |rowToLocalIndex| == |rows|
    && (forall j :: 0 <= j < |finalIndices| ==> IsFinal(rows, finalIndices[j]))
    && (forall j, k :: 0 <= j < k < |finalIndices| ==> rows[finalIndices[j]].session != rows[finalIndices[k]].session)
    && (forall i :: 0 <= i < |rows| ==>
          rowToLocalIndex[i] < |finalIndices| && rows[finalIndices[rowToLocalIndex[i]]].session == rows[i].session)
  }

  /** The loop that builds `final_indices` and the positions of the sessions in it. */
  method FinalIndices(order: seq<string>, final: map<string, (nat, nat)>)
    returns (finalIndices: seq<nat>, local: map<string, nat>)
    requires forall k :: 0 <= k < |order| ==> order[k] in final
    ensures |finalIndices| == |order| && forall k :: 0 <= k < |order| ==> finalIndices[k] == final[order[k]].1
    ensures forall s :: s in local ==> local[s] < |order| && order[local[s]] == s
    ensures forall k :: 0 <= k < |order| ==> order[k] in local
  {
    finalIndices, local := [], map[];
    for j := 0 to |order|
      invariant |finalIndices| == j && forall k :: 0 <= k < j ==> finalIndices[k] == final[order[k]].1
      invariant forall s :: s in local ==> local[s] < j && order[local[s]] == s
      invariant forall k :: 0 <= k < j ==> order[k] in local
    {
      finalIndices := finalIndices + [final[order[j]].1];
      local := local[order[j] := |finalIndices| - 1];
    }
  }

  /** `row_to_local_index` */
  method RowToLocal(local: map<string, nat>, rowSessionKeys: seq<string>) returns (rowToLocalIndex: seq<nat>)
    requires forall i :: 0 <= i < |rowSessionKeys| ==> rowSessionKeys[i] in local
    ensures |rowToLocalIndex| == |rowSessionKeys|
    ensures forall i :: 0 <= i < |rowSessionKeys| ==> rowToLocalIndex[i] == local[rowSessionKeys[i]]
  {
    rowToLocalIndex := [];
    for i := 0 to |rowSessionKeys|
      invariant |rowToLocalIndex| == i
      invariant forall k :: 0 <= k < i ==> rowToLocalIndex[k] == local[rowSessionKeys[k]]
    {
      rowToLocalIndex := rowToLocalIndex + [local[rowSessionKeys[i]]];
    }
  }

  /** The remaining loops. */
  method LocalIndices(order: seq<string>, final: map<string, (nat, nat)>, rowSessionKeys: seq<string>,
                      ghost rows: seq<Row>)
    returns (finalIndices: seq<nat>, rowToLocalIndex: seq<nat>)
    requires FinalSessions(rows, order, final)
    requires rowSessionKeys == SessionsOf(rows)
    ensures Scatters(rows, finalIndices, rowToLocalIndex)
  {
    var local;
    finalIndices, local := FinalIndices(order, final);
    forall i | 0 <= i < |rows| ensures rowSessionKeys[i] in local {
      assert rows[i].session in order;
    }
    rowToLocalIndex := RowToLocal(local, rowSessionKeys);
    forall j | 0 <= j < |order| ensures IsFinalOf(rows, order[j], final[order[j]].0, finalIndices[j]) {
    }
  }

  /** `final_scores[row_to_local_index].unsqueeze(-1) * response_mask` */
  method ScatterScores(finalScores: seq<real>, rowToLocalIndex: seq<nat>, mask: seq<seq<real>>)
    returns (advantages: seq<seq<real>>)
    requires |mask| == |rowToLocalIndex|
             && forall i :: 0 <= i < |rowToLocalIndex| ==> rowToLocalIndex[i] < |finalScores|
    ensures |advantages| == |mask|
    ensures forall i :: 0 <= i < |mask| ==> IsScaled(advantages[i], finalScores[rowToLocalIndex[i]], mask[i])
  {
    advantages := [];
    for i := 0 to |mask|
      invariant |advantages| == i
      invariant forall k :: 0 <= k < i ==> IsScaled(advantages[k], finalScores[rowToLocalIndex[k]], mask[k])
    {
      var score, row := finalScores[rowToLocalIndex[i]], mask[i];
      advantages := advantages + [seq(|row|, t requires 0 <= t < |row| => score * row[t])];
    }
  }

  /** The score at every token of the mask, times the mask. */
  predicate IsScaled(advantages: seq<real>, score: real, mask: seq<real>) {
    |advantages| == |mask| && forall t :: 0 <= t < |mask| ==> advantages[t] == score * mask[t]
  }

  /** A token of the mask gets the score, a token outside it nothing. */
  lemma MaskSelects(advantages: seq<real>, score: real, mask: seq<real>, t: nat)
    requires IsScaled(advantages, score, mask) && t < |mask|
    ensures mask[t] == 0.0 ==> advantages[t] == 0.0
    ensures mask[t] == 1.0 ==> advantages[t] == score
  {
    assert advantages[t] == score * mask[t];
  }

  lemma FinalRowIsUnique(rows: seq<Row>, f: nat, g: nat)
    requires IsFinal(rows, f) && IsFinal(rows, g) && rows[f].session == rows[g].session
    ensures f == g
  {
  }

  /** The whole broadcast, for any scoring of the final rows.  `finalScore(r)` stands for the
      advantage that compute_advantage gives to final row r. */
  method BroadcastScores(keys: seq<string>, mask: seq<seq<real>>, finalScore: nat -> real)
    returns (r: Result<seq<seq<real>>, KeyError>, ghost rows: seq<Row>)
    requires |mask| == |keys|
    ensures r.Ok? <==> forall i :: 0 <= i < |keys| ==> RowOf(keys[i]).Ok?
    ensures r.Ok? ==> AreRows(keys, rows) && |r.value| == |keys|
    ensures r.Ok? ==> forall i, f: nat :: 0 <= i < |keys| && IsFinal(rows, f) && rows[f].session == rows[i].session ==>
                                       IsScaled(r.value[i], finalScore(f), mask[i])
  {
    var order, final, rowSessionKeys, parsed;
    parsed, order, final, rowSessionKeys, rows := FindFinalSessions(keys);
    if parsed.Err? {
      r := Err(parsed.error);
      return;
    }
    var finalIndices, rowToLocalIndex := LocalIndices(order, final, rowSessionKeys, rows);
    var finalScores := seq(|finalIndices|, j requires 0 <= j < |finalIndices| => finalScore(finalIndices[j]));
    var advantages := ScatterScores(finalScores, rowToLocalIndex, mask);
    forall i, f: nat | 0 <= i < |rows| && IsFinal(rows, f) && rows[f].session == rows[i].session
      ensures finalIndices[rowToLocalIndex[i]] == f
    {
      FinalRowIsUnique(rows, f, finalIndices[rowToLocalIndex[i]]);
    }
    r := Ok(advantages);
  }

  /** For keys as the workers format them: a row's session is its (uid, session) pair, and its
      index the output's; so a row of (uid, session, index) is final exactly when no other row of
      the same uid and session has a larger index, or the same one earlier. */
  lemma SessionsAreUidAndSession(uid: string, s: nat, i: nat, uid': string, s': nat, i': nat)
    ensures RowOf(OutputKey(uid, s, i)).Ok? && RowOf(OutputKey(uid, s, i)).value.index == i
    ensures RowOf(OutputKey(uid', s', i')).Ok?
    ensures RowOf(OutputKey(uid, s, i)).value.session == RowOf(OutputKey(uid', s', i')).value.session
            <==> uid == uid' && s == s'
  {
    ParseUndoesFormat(uid, s, i);
    ParseUndoesFormat(uid', s', i');
    var a, b := RowOf(OutputKey(uid, s, i)).value.session, RowOf(OutputKey(uid', s', i')).value.session;
    OutputKeysAreDistinct(uid, s, 0, uid', s', 0);
  }

  /** Every session has a final row, and only one. */
  lemma {:induction false} EverySessionHasOneFinalRow(rows: seq<Row>, i: nat) returns (f: nat)
    requires i < |rows|
    ensures IsFinal(rows, f) && rows[f].session == rows[i].session
    ensures forall g: nat :: IsFinal(rows, g) && rows[g].session == rows[i].session ==> g == f
    decreases |rows|
  {
    var n := |rows| - 1;
    var rest, row := rows[..n], rows[n];
    assert rows == rest + [row];
    if k: nat :| k < n && rest[k].session == rows[i].session {
      f := EverySessionHasOneFinalRow(rest, k);
      if row.session == rows[i].session && rest[f].index < row.index {
        f := n;
      }
    } else {
      f := n;
    }
  }
}
