/** The two small containers the front-end model is written with: an optional
    value, and the two-level table "client, then track" that the hooks keep. */
module Tables {

  datatype Option<+T> = None | Some(value: T) {
    function GetOr(default: T): T {
      if Some? then value else default
    }
  }

  type ClientId = int
  type TrackId = string
  type Table<V> = map<ClientId, map<TrackId, V>>

  function Get<V>(m: Table<V>, c: ClientId, t: TrackId): Option<V> {
    if c in m && t in m[c] then Some(m[c][t]) else None
  }

  function Row<V>(m: Table<V>, c: ClientId): map<TrackId, V> {
    if c in m then m[c] else map[]
  }

  function Put<V>(m: Table<V>, c: ClientId, t: TrackId, v: V): Table<V> {
    m[c := Row(m, c)[t := v]]
  }

  /** Removes one entry, and the client's row with it when the row becomes empty. */
  function Drop<V>(m: Table<V>, c: ClientId, t: TrackId): Table<V> {
    if Get(m, c, t).None? then m
    else if m[c].Keys == {t} then m - {c}
    else m[c := m[c] - {t}]
  }

  /** No client keeps an empty row. */
  ghost predicate Tidy<V>(m: Table<V>) {
    forall c | c in m :: m[c].Keys != {}
  }

  lemma PutGet<V>(m: Table<V>, c: ClientId, t: TrackId, v: V)
    ensures forall c', t' :: Get(Put(m, c, t, v), c', t') == if c' == c && t' == t then Some(v) else Get(m, c', t')
    ensures Tidy(m) ==> Tidy(Put(m, c, t, v))
  {
    assert t in Put(m, c, t, v)[c].Keys;
  }

  lemma PutPut<V>(m: Table<V>, c: ClientId, t: TrackId, v: V, w: V)
    ensures Put(Put(m, c, t, v), c, t, w) == Put(m, c, t, w)
  {
    assert Row(m, c)[t := v][t := w] == Row(m, c)[t := w];
  }

  lemma SamePut<V>(m: Table<V>, c: ClientId, t: TrackId, v: V)
    requires Get(m, c, t) == Some(v)
    ensures Put(m, c, t, v) == m
  {
    assert Row(m, c)[t := v] == m[c];
  }

  lemma DropGet<V>(m: Table<V>, c: ClientId, t: TrackId)
    ensures forall c', t' :: Get(Drop(m, c, t), c', t') == if c' == c && t' == t then None else Get(m, c', t')
    ensures Tidy(m) ==> Tidy(Drop(m, c, t))
  {
    if Get(m, c, t).Some? && m[c].Keys != {t} {
      var u :| u in m[c].Keys && u != t;
      assert u in Drop(m, c, t)[c].Keys;
    }
  }
}
