/** The overlay of pending documents, keyed by database and document id. */
module PendingKeys {

  const UNIT_SEPARATOR := '\U{1f}'

  datatype Revision = Revision(id: string, revision: nat)

  /** `format!("{db_path}\u{1f}{id}")`. */
  function PendingKey(db: string, id: string): string
  {
    db + [UNIT_SEPARATOR] + id
  }

  predicate OfDb(key: string, db: string)
  {
    db + [UNIT_SEPARATOR] <= key
  }

  /** A key tells its database and its document apart from every other. */
  lemma KeysIdentify(d: string, i: string, e: string, j: string)
    requires UNIT_SEPARATOR !in d && UNIT_SEPARATOR !in e
    ensures PendingKey(d, i) == PendingKey(e, j) <==> d == e && i == j
  {
    SeparatedPair(d, UNIT_SEPARATOR, i, e, j);
  }

  /** With a separator that neither contains, one prefix reaches only its own keys. */
  lemma SeparatedPrefix(d: string, e: string, sep: char, rest: string)
    requires sep !in d && sep !in e
    ensures d + [sep] <= e + [sep] + rest <==> d == e
  {
    var key := e + [sep] + rest;
    if |d| < |e| {
      assert key[|d|] == e[|d|] != sep && (d + [sep])[|d|] == sep;
    } else if |d| > |e| {
      assert key[|e|] == sep && (d + [sep])[|e|] == d[|e|] != sep;
    } else if d + [sep] <= key {
      assert d == (d + [sep])[..|d|] == key[..|d|] == e;
    }
  }

  /** With a separator that the first halves do not contain, a text splits in one way only. */
  lemma SeparatedPair(d: string, sep: char, i: string, e: string, j: string)
    requires sep !in d && sep !in e
    ensures d + [sep] + i == e + [sep] + j <==> d == e && i == j
  {
    var s, t := d + [sep] + i, e + [sep] + j;
    SeparatedPrefix(d, e, sep, j);
    if s == t {
      assert d + [sep] <= s;
      assert i == s[|d| + 1..] && j == t[|e| + 1..];
    }
  }

  /** Removes, one after the other, the entries that are still at the given revisions. */
  function ClearIfCurrent(pending: map<string, nat>, db: string, revs: seq<Revision>): map<string, nat>
  {
    if revs == [] then pending
    else
      var key := PendingKey(db, revs[0].id);
      var current := key in pending && pending[key] == revs[0].revision;
      ClearIfCurrent(if current then pending - {key} else pending, db, revs[1..])
  }

  function WithoutDb(pending: map<string, nat>, db: string): map<string, nat>
  {
    map key | key in pending && !OfDb(key, db) :: pending[key]
  }

  /** Exactly the entries whose revision is among the given ones go. */
  lemma {:induction false} ClearIfCurrentRemoves(pending: map<string, nat>, db: string, revs: seq<Revision>)
    ensures var rest := ClearIfCurrent(pending, db, revs);
            forall key :: key in rest <==>
              && key in pending
              && !exists i :: 0 <= i < |revs| && key == PendingKey(db, revs[i].id) && pending[key] == revs[i].revision
    ensures forall key | key in ClearIfCurrent(pending, db, revs) ::
              key in pending && ClearIfCurrent(pending, db, revs)[key] == pending[key]
  {
    if revs != [] {
      var key := PendingKey(db, revs[0].id);
      var first := if key in pending && pending[key] == revs[0].revision then pending - {key} else pending;
      ClearIfCurrentRemoves(first, db, revs[1..]);
      forall k | k in pending
        ensures (exists i :: 0 <= i < |revs| && k == PendingKey(db, revs[i].id) && pending[k] == revs[i].revision)
           <==> ((k == key && pending[k] == revs[0].revision) ||
                 exists i :: 0 <= i < |revs[1..]| && k == PendingKey(db, revs[1..][i].id)
                             && pending[k] == revs[1..][i].revision)
      {
        if i :| 0 <= i < |revs[1..]| && k == PendingKey(db, revs[1..][i].id) && pending[k] == revs[1..][i].revision {
          assert revs[i + 1] == revs[1..][i];
        }
        if i :| 1 <= i < |revs| && k == PendingKey(db, revs[i].id) && pending[k] == revs[i].revision {
          assert revs[1..][i - 1] == revs[i];
        }
      }
    }
  }
}
