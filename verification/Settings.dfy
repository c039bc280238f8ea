/** System settings: the masked admin form over a table cached in memory
    (internal/settings/handler.go, service.go, internal/app/settings_store.go). */
module Settings {
  type Key = string

  /** A system_settings row; key is its PRIMARY KEY. */
  datatype Row = Row(key: Key, value: string, secret: bool, group: string)

  /** The table, the in-memory copy of it, and the environment defaults. */
  datatype State = State(rows: seq<Row>, data: map<Key, string>, env: map<Key, string>)

  predicate UniqueKeys(rows: seq<Row>) {
    forall i, j | 0 <= i < j < |rows| :: rows[i].key != rows[j].key
  }

  function Lookup(m: map<Key, string>, k: Key): string { if k in m then m[k] else "" }

  /** SettingsStore.Get: the value every consumer sees. */
  function Effective(s: State, k: Key): string {
    if Lookup(s.data, k) != "" then Lookup(s.data, k) else Lookup(s.env, k)
  }

  /** What Reload reads from the table. */
  function Contents(rows: seq<Row>): map<Key, string> {
    if rows == [] then map[]
    else Contents(rows[..|rows| - 1])[rows[|rows| - 1].key := rows[|rows| - 1].value]
  }

  predicate Matches(s: State) { s.data == Contents(s.rows) }

  function Mask(s: string): string {
    if |s| <= 4 then "****" else "***" + s[|s| - 4..]
  }

  predicate IsMasked(v: string) { "***" <= v }

  function FormValue(s: State, row: Row): string {
    var v := if row.value == "" then Effective(s, row.key) else row.value;
    if row.secret && v != "" then Mask(v) else v
  }

  predicate InGroup(row: Row, group: string) { group == "" || row.group == group }

  /** The form as the page shows it and sends it back unedited. */
  function Form(s: State, rows: seq<Row>, group: string): map<Key, string> {
    if rows == [] then map[]
    else
      var front, last := Form(s, rows[..|rows| - 1], group), rows[|rows| - 1];
      if InGroup(last, group) then front[last.key := FormValue(s, last)] else front
  }

  function Unmasked(request: map<Key, string>): map<Key, string> {
    map k | k in request && !IsMasked(request[k]) :: request[k]
  }

  function Updated(rows: seq<Row>, updates: map<Key, string>): seq<Row> {
    seq(|rows|, i requires 0 <= i < |rows| =>
      if rows[i].key in updates then rows[i].(value := updates[rows[i].key]) else rows[i])
  }

  /** UpdateSettings; `reloads` tells whether the reload after the commit succeeds. */
  function Save(s: State, request: map<Key, string>, reloads: bool): State {
    var filtered := Unmasked(request);
    if filtered == map[] then s
    else
      var rows := Updated(s.rows, filtered);
      State(rows, if reloads then Contents(rows) else s.data, s.env)
  }

  // ----- The handlers -----

  class SettingsService {
    var rows: seq<Row>
    var data: map<Key, string>
    const env: map<Key, string>

    ghost function View(): State
      reads this
    {
      State(rows, data, env)
    }

    constructor (rows: seq<Row>, env: map<Key, string>)
      ensures View() == State(rows, map[], env)
    {
      this.rows := rows;
      this.env := env;
      data := map[];
    }

    method Reload()
      modifies this`data
      ensures data == Contents(rows)
    {
      var copy: map<Key, string> := map[];
      for i := 0 to |rows|
        invariant copy == Contents(rows[..i])
      {
        assert rows[..i + 1][..i] == rows[..i];
        copy := copy[rows[i].key := rows[i].value];
      }
      assert rows[..|rows|] == rows;
      data := copy;
    }

    method GetSettings(group: string) returns (form: map<Key, string>)
      ensures form == Form(View(), rows, group)
    {
      form := map[];
      for i := 0 to |rows|
        invariant form == Form(View(), rows[..i], group)
      {
        assert rows[..i + 1][..i] == rows[..i];
        var s := rows[i];
        if InGroup(s, group) {
          var val := s.value;
          if val == "" {
            val := if s.key in data && data[s.key] != "" then data[s.key]
            else if s.key in env then env[s.key] else "";
          }
          if s.secret && val != "" { val := Mask(val); }
          form := form[s.key := val];
        }
      }
      assert rows[..|rows|] == rows;
    }

    method UpdateSettings(request: map<Key, string>, reloads: bool)
      modifies this
      ensures View() == Save(old(View()), request, reloads)
    {
      var filtered: map<Key, string> := map[];
      var todo := request.Keys;
      while todo != {}
        invariant todo <= request.Keys
        invariant forall k :: k in filtered <==> k in request && k !in todo && !IsMasked(request[k])
        invariant forall k | k in filtered :: filtered[k] == request[k]
        decreases todo
      {
        var k :| k in todo;
        todo := todo - {k};
        if !IsMasked(request[k]) {
          filtered := filtered[k := request[k]];
        }
      }
      assert filtered == Unmasked(request);
      if filtered == map[] { return; }
      UpdateBatch(filtered);
      if reloads { Reload(); }
    }

    /** One update by key for each entry, in any order. */
    method UpdateBatch(updates: map<Key, string>)
      modifies this`rows
      ensures rows == Updated(old(rows), updates)
    {
      var todo := updates.Keys;
      var before := rows;
      ghost var done: map<Key, string> := map[];
      while todo != {}
        invariant todo <= updates.Keys
        invariant done == map k | k in updates && k !in todo :: updates[k]
        invariant rows == Updated(before, done)
        decreases todo
      {
        var k :| k in todo;
        todo := todo - {k};
        UpdateOne(before, done, k, updates[k]);
        rows := Updated(rows, map[k := updates[k]]);
        done := done[k := updates[k]];
      }
      assert done == updates;
    }
  }

  lemma UpdateOne(rows: seq<Row>, done: map<Key, string>, k: Key, v: string)
    ensures Updated(Updated(rows, done), map[k := v]) == Updated(rows, done[k := v])
  {
  }

  // ----- What saving does to effective values -----

  lemma {:induction false} ContentsAt(rows: seq<Row>, i: nat)
    requires UniqueKeys(rows) && i < |rows|
    ensures rows[i].key in Contents(rows) && Contents(rows)[rows[i].key] == rows[i].value
  {
    if i < |rows| - 1 { ContentsAt(rows[..|rows| - 1], i); }
  }

  lemma {:induction false} ContentsKeys(rows: seq<Row>, k: Key)
    ensures k in Contents(rows) <==> exists i :: 0 <= i < |rows| && rows[i].key == k
  {
    if rows != [] {
      ContentsKeys(rows[..|rows| - 1], k);
      assert rows[|rows| - 1].key in Contents(rows);
    }
  }

  lemma {:induction false} FormAt(s: State, rows: seq<Row>, group: string, i: nat)
    requires UniqueKeys(rows) && i < |rows|
    ensures rows[i].key in Form(s, rows, group) <==> InGroup(rows[i], group)
    ensures InGroup(rows[i], group) ==> Form(s, rows, group)[rows[i].key] == FormValue(s, rows[i])
  {
    var front := rows[..|rows| - 1];
    if i < |rows| - 1 {
      FormAt(s, front, group, i);
    } else if rows[i].key in Form(s, front, group) {
      FormKeys(s, front, group, rows[i].key);
    }
  }

  lemma {:induction false} FormKeys(s: State, rows: seq<Row>, group: string, k: Key)
    requires k in Form(s, rows, group)
    ensures exists i :: 0 <= i < |rows| && rows[i].key == k
  {
    if rows != [] {
      var front, last := rows[..|rows| - 1], rows[|rows| - 1];
      if k in Form(s, front, group) { FormKeys(s, front, group, k); }
    }
  }

  /** The value of a key after a save: an unmasked value takes its place, and
      clearing a setting falls back to the environment; anything starting with
      three asterisks, and any key not sent, keeps what was in effect. */
  lemma SaveEffect(s: State, request: map<Key, string>, k: Key)
    requires UniqueKeys(s.rows) && Matches(s)
    ensures var s' := Save(s, request, true);
            && Matches(s') && UniqueKeys(s'.rows)
            && Effective(s', k) ==
               if k in Contents(s.rows) && k in request && !IsMasked(request[k])
               then (if request[k] != "" then request[k] else Lookup(s.env, k))
               else Effective(s, k)
  {
    hide Contents;
    var s' := Save(s, request, true);
    ContentsKeys(s.rows, k);
    ContentsKeys(s'.rows, k);
    assert k in Unmasked(request) <==> k in request && !IsMasked(request[k]);
    if i :| 0 <= i < |s.rows| && s.rows[i].key == k {
      ContentsAt(s.rows, i);
      ContentsAt(s'.rows, i);
    } else {
      forall i | 0 <= i < |s'.rows| ensures s'.rows[i].key != k {
        assert s.rows[i].key != k;
      }
    }
  }

  /** Loading the form and saving it back unedited changes no effective value, of
      any key, secret or not, and leaves the store matching the table. */
  lemma UneditedFormPreserves(s: State, group: string, k: Key)
    requires UniqueKeys(s.rows) && Matches(s)
    ensures var s' := Save(s, Form(s, s.rows, group), true);
            Matches(s') && Effective(s', k) == Effective(s, k)
  {
    var form := Form(s, s.rows, group);
    SaveEffect(s, form, k);
    ContentsKeys(s.rows, k);
    if i :| 0 <= i < |s.rows| && s.rows[i].key == k {
      FormAt(s, s.rows, group, i);
      ContentsAt(s.rows, i);
    }
  }

  // ----- The same round trip when the store may lag behind the table -----

  /** The form sends this row's effective value although the row itself is cleared. */
  predicate Fills(s: State, row: Row, group: string) {
    && row.value == "" && InGroup(row, group) && !row.secret
    && !IsMasked(Effective(s, row.key))
  }

  /** What saving the unedited form writes to a row. */
  lemma UneditedRow(s: State, group: string, i: nat)
    requires UniqueKeys(s.rows) && i < |s.rows|
    ensures var row := s.rows[i];
            var s' := Save(s, Form(s, s.rows, group), true);
            && |s'.rows| == |s.rows|
            && s'.rows[i] == if Fills(s, row, group) then row.(value := Effective(s, row.key)) else row
  {
    var form := Form(s, s.rows, group);
    FormAt(s, s.rows, group, i);
    var filtered := Unmasked(form);
    assert s.rows[i].key in filtered <==> InGroup(s.rows[i], group) && !IsMasked(FormValue(s, s.rows[i]));
  }

  /** The row keeps its value exactly unless it is cleared, shown and not secret, while
      something that does not look masked is in effect: an old value of a lagging store,
      or the environment's default, which the save then pins in the table. */
  lemma UneditedRowKept(s: State, group: string, i: nat)
    requires UniqueKeys(s.rows) && i < |s.rows|
    ensures var row := s.rows[i];
            var kept := Save(s, Form(s, s.rows, group), true).rows[i] == row;
            kept <==> !(Fills(s, row, group) && Effective(s, row.key) != "")
  {
    UneditedRow(s, group, i);
  }

  /** The effective value of the row's key after the save, whatever the store held. */
  lemma UneditedEffective(s: State, group: string, i: nat)
    requires UniqueKeys(s.rows) && i < |s.rows| && Unmasked(Form(s, s.rows, group)) != map[]
    ensures var row := s.rows[i];
            Effective(Save(s, Form(s, s.rows, group), true), row.key)
            == if row.value != "" then row.value
            else if Fills(s, row, group) then Effective(s, row.key)
            else Lookup(s.env, row.key)
  {
    var s' := Save(s, Form(s, s.rows, group), true);
    UneditedRow(s, group, i);
    ContentsAt(s'.rows, i);
  }

  /** It is preserved exactly if nothing was sent, the row already holds what is in
      effect, the form fills the row, or the row is cleared and the environment's value
      is in effect: in short, unless the reload corrects a value that had gone stale. */
  lemma UneditedEffectiveKept(s: State, group: string, i: nat)
    requires UniqueKeys(s.rows) && i < |s.rows|
    ensures var row := s.rows[i];
            var before := Effective(s, row.key);
            var kept := Effective(Save(s, Form(s, s.rows, group), true), row.key) == before;
            var current := before == if row.value != "" then row.value else Lookup(s.env, row.key);
            kept <==> Unmasked(Form(s, s.rows, group)) == map[] || Fills(s, row, group) || current
  {
    if Unmasked(Form(s, s.rows, group)) != map[] { UneditedEffective(s, group, i); }
  }

  /** A key without a row falls back to the environment when the save reloads. */
  lemma UneditedMissing(s: State, group: string, k: Key)
    requires forall i | 0 <= i < |s.rows| :: s.rows[i].key != k
    ensures Effective(Save(s, Form(s, s.rows, group), true), k) == Effective(s, k)
       <==> (Unmasked(Form(s, s.rows, group)) == map[] || Effective(s, k) == Lookup(s.env, k))
  {
    var s' := Save(s, Form(s, s.rows, group), true);
    if Unmasked(Form(s, s.rows, group)) != map[] {
      ContentsKeys(s'.rows, k);
      forall i | 0 <= i < |s'.rows| ensures s'.rows[i].key != k {
        assert s.rows[i].key != k;
      }
    }
  }

  /** The least of it: the table was cleared, the store still has the old value, and the
      save writes it back into the table. */
  lemma StaleStoreResurrects()
    ensures var s := State([Row("smtp_host", "", false, "smtp")], map["smtp_host" := "old"], map[]);
            && Effective(s.(data := Contents(s.rows)), "smtp_host") == ""
            && Save(s, Form(s, s.rows, "smtp"), true).rows[0].value == "old"
  {
    var s := State([Row("smtp_host", "", false, "smtp")], map["smtp_host" := "old"], map[]);
    assert s.rows[..0] == [];
    var form := Form(s, s.rows, "smtp");
    assert form == map["smtp_host" := "old"];
    assert !IsMasked("old") by { assert "old"[0] != "***"[0]; }
    assert "smtp_host" in Unmasked(form);
    ContentsAt(s.rows, 0);
  }

  /** A masked secret gives away its last four characters and nothing else; one of
      at most four characters gives away nothing. */
  lemma MaskReveals(a: string, b: string)
    ensures IsMasked(Mask(a))
    ensures Mask(a) == Mask(b) <==>
            (|a| <= 4 && |b| <= 4) || (|a| > 4 && |b| > 4 && a[|a| - 4..] == b[|b| - 4..])
  {
    if |a| > 4 { assert Mask(a)[3..] == a[|a| - 4..]; }
    if |b| > 4 { assert Mask(b)[3..] == b[|b| - 4..]; }
  }
  // ----- What the form shows, and what it gives away -----

  /** The value in effect for a row: its own, else the cached one, else the environment's. */
  function InEffect(s: State, row: Row): string {
    if row.value != "" then row.value
    else if row.key in s.data && s.data[row.key] != "" then s.data[row.key]
    else if row.key in s.env then s.env[row.key]
    else ""
  }

  /** The form has an entry for exactly the keys of the group.  A plain setting is shown
      as it is in effect; of a secret one at most three asterisks and the last four
      characters are shown, and four asterisks if it has no more than four. */
  lemma FormShows(s: State, group: string, i: nat)
    requires UniqueKeys(s.rows) && i < |s.rows|
    ensures var row := s.rows[i];
            var form := Form(s, s.rows, group);
            var v := InEffect(s, row);
            && (row.key in form <==> group == "" || row.group == group)
            && (row.key in form ==>
                  && (!row.secret || v == "" ==> form[row.key] == v)
                  && (row.secret && v != "" ==>
                        form[row.key] == if |v| <= 4 then "****" else "***" + v[|v| - 4..]))
  {
    FormAt(s, s.rows, group, i);
  }

  lemma FormHasNoOthers(s: State, group: string, k: Key)
    requires k in Form(s, s.rows, group)
    ensures exists i | 0 <= i < |s.rows| :: s.rows[i].key == k
  {
    FormKeys(s, s.rows, group, k);
  }

  /** Two secrets that may not be told apart: both unset, both short, or longer with the
      same last four characters. */
  predicate LookAlike(a: string, b: string) {
    || a == "" == b
    || (0 < |a| <= 4 && 0 < |b| <= 4)
    || (|a| > 4 && |b| > 4 && a[|a| - 4..] == b[|b| - 4..])
  }

  predicate SameShown(s: State, t: State, i: nat)
    requires i < |s.rows| && i < |t.rows|
  {
    if s.rows[i].secret then LookAlike(InEffect(s, s.rows[i]), InEffect(t, t.rows[i]))
    else InEffect(s, s.rows[i]) == InEffect(t, t.rows[i])
  }

  /** The two tables differ at most in values. */
  ghost predicate SameLayout(s: State, t: State) {
    && |s.rows| == |t.rows|
    && forall i | 0 <= i < |s.rows| ::
         && s.rows[i].key == t.rows[i].key && s.rows[i].secret == t.rows[i].secret
         && s.rows[i].group == t.rows[i].group
  }

  lemma ShownAlike(s: State, t: State, i: nat)
    requires SameLayout(s, t) && i < |s.rows|
    ensures SameShown(s, t, i) <==> FormValue(s, s.rows[i]) == FormValue(t, t.rows[i])
  {
    hide Mask, FormValue, InEffect, LookAlike;
    ValueShown(s, s.rows[i]);
    ValueShown(t, t.rows[i]);
    MaskedAlike(InEffect(s, s.rows[i]), InEffect(t, t.rows[i]));
  }

  lemma ValueShown(s: State, row: Row)
    ensures var v := InEffect(s, row); FormValue(s, row) == if row.secret && v != "" then Mask(v) else v
  {
  }

  lemma MaskedAlike(a: string, b: string)
    ensures LookAlike(a, b) <==> (if a != "" then Mask(a) else a) == (if b != "" then Mask(b) else b)
  {
    MaskReveals(a, b);
  }

  lemma {:induction false} AlikeForms(s: State, t: State, group: string, n: nat)
    requires SameLayout(s, t) && n <= |s.rows|
    requires forall i | 0 <= i < n && (group == "" || s.rows[i].group == group) :: SameShown(s, t, i)
    ensures Form(s, s.rows[..n], group) == Form(t, t.rows[..n], group)
    decreases n
  {
    hide SameShown;
    if n > 0 {
      assert s.rows[..n][..n - 1] == s.rows[..n - 1] && t.rows[..n][..n - 1] == t.rows[..n - 1];
      AlikeForms(s, t, group, n - 1);
      ShownAlike(s, t, n - 1);
    }
  }

  /** Non-interference: whatever lies in the table, in the cached copy and in the
      environment, two installations show the same form if and only if their plain settings
      in the group agree and their secrets there look alike.  So the form tells nothing else
      about any secret. */
  lemma FormGivesAwayOnly(s: State, t: State, group: string)
    requires SameLayout(s, t) && UniqueKeys(s.rows)
    ensures Form(s, s.rows, group) == Form(t, t.rows, group)
       <==> forall i | 0 <= i < |s.rows| && (group == "" || s.rows[i].group == group) :: SameShown(s, t, i)
  {
    hide SameShown;
    var n := |s.rows|;
    assert s.rows[..n] == s.rows && t.rows[..n] == t.rows;
    if Form(s, s.rows, group) == Form(t, t.rows, group) {
      forall i | 0 <= i < n && (group == "" || s.rows[i].group == group) ensures SameShown(s, t, i) {
        FormAt(s, s.rows, group, i);
        FormAt(t, t.rows, group, i);
        ShownAlike(s, t, i);
      }
    } else if forall i | 0 <= i < n && (group == "" || s.rows[i].group == group) :: SameShown(s, t, i) {
      AlikeForms(s, t, group, n);
    }
  }

  /** The values that a save takes from what was sent: any that does not start with three
      asterisks. */
  predicate Sent(request: map<Key, string>, k: Key) {
    k in request && !(|request[k]| >= 3 && request[k][0] == '*' && request[k][1] == '*' && request[k][2] == '*')
  }

  lemma SentExactly(request: map<Key, string>, k: Key)
    ensures Sent(request, k) <==> k in Unmasked(request)
    ensures Sent(request, k) ==> Unmasked(request)[k] == request[k]
  {
  }

  /** What a save writes: the sent value into the row of its key, nothing anywhere else. */
  lemma SaveWrites(s: State, request: map<Key, string>, reloads: bool, i: nat)
    requires i < |s.rows|
    ensures var after := Save(s, request, reloads);
            var row := s.rows[i];
            && after.env == s.env && |after.rows| == |s.rows|
            && after.rows[i] == Row(row.key, if Sent(request, row.key) then request[row.key] else row.value,
                                    row.secret, row.group)
  {
    hide Unmasked, Contents, Sent;
    SentExactly(request, s.rows[i].key);
  }

  /** When there was nothing to write, or the reload failed, the cached copy is left alone;
      otherwise it holds exactly the new table. */
  lemma SaveCaches(s: State, request: map<Key, string>, reloads: bool)
    requires UniqueKeys(s.rows)
    ensures var after := Save(s, request, reloads);
            var written := exists k | k in request :: Sent(request, k);
            && (!(written && reloads) ==> after.data == s.data)
            && (written && reloads ==>
                  && after.data.Keys == (set i | 0 <= i < |s.rows| :: s.rows[i].key)
                  && forall i | 0 <= i < |s.rows| :: after.data[s.rows[i].key] == after.rows[i].value)
  {
    hide Unmasked, Contents, Sent;
    forall k | k in request ensures Sent(request, k) <==> k in Unmasked(request) { SentExactly(request, k); }
    var after := Save(s, request, reloads);
    if k :| k in request && Sent(request, k) {
      SentExactly(request, k);
      Cached(s.rows, Updated(s.rows, Unmasked(request)));
    } else {
      forall k ensures k !in Unmasked(request) { SentExactly(request, k); SentOnly(request, k); }
      assert Unmasked(request) == map[];
    }
  }

  lemma SentOnly(request: map<Key, string>, k: Key)
    ensures Sent(request, k) ==> k in request
  {
  }

  lemma Cached(before: seq<Row>, after: seq<Row>)
    requires UniqueKeys(before) && |after| == |before|
    requires forall i | 0 <= i < |before| :: after[i].key == before[i].key
    ensures Contents(after).Keys == set i | 0 <= i < |before| :: before[i].key
    ensures forall i | 0 <= i < |before| :: before[i].key in Contents(after)
    ensures forall i | 0 <= i < |before| :: Contents(after)[before[i].key] == after[i].value
  {
    hide Contents;
    forall i | 0 <= i < |before|
      ensures before[i].key in Contents(after) && Contents(after)[before[i].key] == after[i].value
    {
      ContentsAt(after, i);
    }
    forall k | k in Contents(after) ensures exists i | 0 <= i < |before| :: before[i].key == k {
      ContentsKeys(after, k);
      var i :| 0 <= i < |after| && after[i].key == k;
      assert before[i].key == k;
    }
  }
}
