/**
 * The in-memory template store of the backend (the `db` module of
 * backend/src/main.rs): a map from `i32` ids to records behind a read/write
 * lock. In the source the whole module is commented out (main.rs:23-146),
 * as is its only caller, `example_handler_count_templates`; it is the store
 * the handlers were written against, while the live handlers talk to
 * Postgres. The lock is modelled only by whether it is poisoned; a poisoned
 * lock makes every writer fail with `WriteError` and every reader with
 * `ReadError`.
 */
module Db {
  import opened Wrappers

  /** Rust's `i32`. */
  newtype i32 = x: int | -0x8000_0000 <= x < 0x8000_0000

  /** An error that resulted from an action on the database. */
  datatype DatabaseError = WriteError | ReadError

  /** The result type of an action on the database. */
  type DatabaseResult<T> = Result<T, DatabaseError>

  /** The text each error displays (its `#[error(...)]` attribute): which kind of problem the database had. */
  function Describe(e: DatabaseError): (s: string)
    ensures |s| > 27 && s[..20] == "There was a problem "
    ensures s[20..27] == if e == WriteError then "writing" else "reading"
  {
    match e
    case WriteError =>
      var text := "There was a problem " + "writing" + " to the database";
      assert text[..20] == "There was a problem " && text[20..27] == "writing";
      text
    case ReadError =>
      var text := "There was a problem " + "reading" + " from the database";
      assert text[..20] == "There was a problem " && text[20..27] == "reading";
      text
  }

  /** The two kinds of failure display different texts. */
  lemma DescribeDistinguishes(a: DatabaseError, b: DatabaseError)
    ensures Describe(a) == Describe(b) <==> a == b
  {
  }

  /** What reading `id` from the map `m` yields. */
  function Lookup<T>(m: map<i32, T>, id: i32): Option<T>
  {
    if id in m then Some(m[id]) else None
  }

  /** The singleton multiset of `x` if the filter accepts it, else the empty one. */
  function Pick<T>(filter: T -> bool, x: T): multiset<T>
  {
    if filter(x) then multiset{x} else multiset{}
  }

  /**
   * The stored values that `filter` accepts, each as often as it is stored
   * under an id: the order a selection comes back in is unspecified, so it is
   * compared as a multiset.
   */
  ghost function Selected<T>(m: map<i32, T>, filter: T -> bool): multiset<T>
    decreases |m|
  {
    if m == map[] then multiset{}
    else
      var k := SomeId(m);
      Shrink(m, k);
      Selected(m - {k}, filter) + Pick(filter, m[k])
  }

  /** Some id stored in a non-empty map. */
  ghost function SomeId<T>(m: map<i32, T>): (k: i32)
    requires m != map[]
    ensures k in m
  {
    var k :| k in m; k
  }

  /** Removing a stored id makes the map one smaller. */
  lemma Shrink<T>(m: map<i32, T>, k: i32)
    requires k in m
    ensures |m - {k}| == |m| - 1
  {
  }

  /** Any stored id may be taken out first: `Selected` does not depend on the order it visits the map in. */
  lemma {:induction false} SelectedRemove<T>(m: map<i32, T>, filter: T -> bool, k: i32)
    requires k in m
    ensures Selected(m, filter) == Selected(m - {k}, filter) + Pick(filter, m[k])
    decreases |m|
  {
    var j := SomeId(m);
    if j != k {
      var withoutJ, withoutK := m - {j}, m - {k};
      var withoutBoth := withoutJ - {k};
      assert withoutBoth == withoutK - {j};
      Shrink(m, j);
      Shrink(m, k);
      SelectedRemove(withoutJ, filter, k);
      SelectedRemove(withoutK, filter, j);
      assert Selected(m, filter) == Selected(withoutJ, filter) + Pick(filter, m[j]);
      assert Selected(withoutJ, filter) == Selected(withoutBoth, filter) + Pick(filter, m[k]);
      assert Selected(withoutK, filter) == Selected(withoutBoth, filter) + Pick(filter, m[j]);
    }
  }

  /** The ids under which `x` is stored. */
  ghost function IdsHolding<T>(m: map<i32, T>, x: T): set<i32>
  {
    set k | k in m && m[k] == x
  }

  /** The ids whose stored value `filter` accepts. */
  ghost function IdsAccepted<T>(m: map<i32, T>, filter: T -> bool): set<i32>
  {
    set k | k in m && filter(m[k])
  }

  /**
   * A selection holds each accepted value exactly as many times as it is
   * stored, and no value the filter rejects.
   */
  lemma {:induction false} SelectedMultiplicity<T>(m: map<i32, T>, filter: T -> bool, x: T)
    ensures Selected(m, filter)[x] == if filter(x) then |IdsHolding(m, x)| else 0
    decreases |m|
  {
    if m == map[] {
      assert IdsHolding(m, x) == {};
    } else {
      var k := SomeId(m);
      var rest := m - {k};
      SelectedRemove(m, filter, k);
      Shrink(m, k);
      SelectedMultiplicity(rest, filter, x);
      assert Selected(m, filter)[x] == Selected(rest, filter)[x] + Pick(filter, m[k])[x];
      if m[k] == x {
        assert IdsHolding(m, x) == IdsHolding(rest, x) + {k};
        assert k !in IdsHolding(rest, x);
      } else {
        assert IdsHolding(m, x) == IdsHolding(rest, x);
      }
    }
  }

  /** A value is selected exactly when it is stored under some id and the filter accepts it. */
  lemma SelectedMember<T>(m: map<i32, T>, filter: T -> bool, x: T)
    ensures x in Selected(m, filter) <==> filter(x) && exists k :: k in m && m[k] == x
  {
    SelectedMultiplicity(m, filter, x);
    if filter(x) && exists k :: k in m && m[k] == x {
      var k :| k in m && m[k] == x;
      assert k in IdsHolding(m, x);
    }
  }

  /** A selection holds one value per accepted id. */
  lemma {:induction false} SelectedSize<T>(m: map<i32, T>, filter: T -> bool)
    ensures |Selected(m, filter)| == |IdsAccepted(m, filter)|
    decreases |m|
  {
    if m == map[] {
      assert IdsAccepted(m, filter) == {};
    } else {
      var k := SomeId(m);
      var rest := m - {k};
      SelectedRemove(m, filter, k);
      Shrink(m, k);
      SelectedSize(rest, filter);
      IdsAcceptedRemove(m, filter, k);
      assert |Selected(m, filter)| == |Selected(rest, filter)| + |Pick(filter, m[k])|;
    }
  }

  /** Taking a stored id out of the map takes it out of the accepted ids, if it was accepted. */
  lemma IdsAcceptedRemove<T>(m: map<i32, T>, filter: T -> bool, k: i32)
    requires k in m
    ensures |IdsAccepted(m, filter)| == |IdsAccepted(m - {k}, filter)| + if filter(m[k]) then 1 else 0
  {
    var rest := m - {k};
    if filter(m[k]) {
      assert IdsAccepted(m, filter) == IdsAccepted(rest, filter) + {k};
      assert k !in IdsAccepted(rest, filter);
    } else {
      assert IdsAccepted(m, filter) == IdsAccepted(rest, filter);
    }
  }

  /** Selecting with a filter that accepts everything yields as many templates as `count_templates` reports. */
  lemma SelectEverythingCounts<T>(m: map<i32, T>)
    ensures |Selected(m, _ => true)| == |m|
  {
    SelectedSize(m, _ => true);
    assert IdsAccepted(m, _ => true) == m.Keys;
  }

  /** A selection after deleting a stored id has lost exactly that id's value, if the filter accepted it. */
  lemma SelectedAfterDelete<T>(m: map<i32, T>, filter: T -> bool, id: i32)
    requires id in m
    ensures Selected(m - {id}, filter) == Selected(m, filter) - Pick(filter, m[id])
  {
    SelectedRemove(m, filter, id);
  }

  /**
   * A database of templates. `templates` is the map behind the lock;
   * `poisoned` says that the lock can no longer be acquired (a previous
   * holder panicked while holding it).
   */
  class Database<T> {
    var templates: map<i32, T>
    var poisoned: bool

    /** Initialize a database: empty, with a healthy lock. */
    constructor ()
      ensures templates == map[] && !poisoned
    {
      templates := map[];
      poisoned := false;
    }

    /**
     * Add a template under `id`, overwriting any template already there.
     * Fails, changing nothing, when the lock cannot be written.
     */
    method CreateTemplate(id: i32, template: T) returns (r: DatabaseResult<()>)
      modifies this`templates
      ensures poisoned ==> r == Err(WriteError) && templates == old(templates)
      ensures !poisoned ==> r == Ok(()) && templates == old(templates)[id := template]
    {
      if poisoned {
        return Err(WriteError);
      }
      templates := templates[id := template];
      return Ok(());
    }

    /**
     * Get a copy of the template stored under `id`; a missing id is `None`,
     * not an error. Fails only when the lock cannot be read.
     */
    method ReadTemplate(id: i32) returns (r: DatabaseResult<Option<T>>)
      ensures poisoned ==> r == Err(ReadError)
      ensures !poisoned ==> r.Ok? && (r.value.Some? <==> id in templates)
      ensures !poisoned && id in templates ==> r.value.value == templates[id]
      ensures !poisoned ==> r == Ok(Lookup(templates, id))
    {
      if poisoned {
        return Err(ReadError);
      }
      var template := if id in templates then Some(templates[id]) else None;
      return Ok(template);
    }

    /**
     * Replace the template under `id`; with no template there it acts like
     * `CreateTemplate`. Fails, changing nothing, when the lock cannot be written.
     */
    method UpdateTemplate(id: i32, template: T) returns (r: DatabaseResult<()>)
      modifies this`templates
      ensures poisoned ==> r == Err(WriteError) && templates == old(templates)
      ensures !poisoned ==> r == Ok(()) && templates == old(templates)[id := template]
    {
      if poisoned {
        return Err(WriteError);
      }
      if id in templates {
        // the existing entry, reached through `get_mut`, is overwritten
        templates := templates[id := template];
      } else {
        templates := templates[id := template];
      }
      return Ok(());
    }

    /**
     * Remove the template under `id`; with no template there nothing
     * happens. Fails, changing nothing, when the lock cannot be written.
     */
    method DeleteTemplate(id: i32) returns (r: DatabaseResult<()>)
      modifies this`templates
      ensures poisoned ==> r == Err(WriteError) && templates == old(templates)
      ensures !poisoned ==> r == Ok(()) && templates == old(templates) - {id}
    {
      if poisoned {
        return Err(WriteError);
      }
      templates := templates - {id};
      return Ok(());
    }

    /** The number of stored templates. Fails when the lock cannot be read. */
    method CountTemplates() returns (r: DatabaseResult<nat>)
      ensures poisoned ==> r == Err(ReadError)
      ensures !poisoned ==> r == Ok(|templates.Keys|)
    {
      if poisoned {
        return Err(ReadError);
      }
      var count := |templates|;
      return Ok(count);
    }

    /**
     * The stored templates that `filter` accepts, each once per id it is
     * stored under, in no particular order. Fails when the lock cannot be read.
     */
    method SelectTemplates(filter: T -> bool) returns (r: DatabaseResult<seq<T>>)
      ensures poisoned ==> r == Err(ReadError)
      ensures !poisoned ==> r.Ok? && multiset(r.value) == Selected(templates, filter)
    {
      if poisoned {
        return Err(ReadError);
      }
      var selection: seq<T> := [];
      var unvisited := templates;
      while unvisited != map[]
        invariant multiset(selection) + Selected(unvisited, filter) == Selected(templates, filter)
        decreases |unvisited|
      {
        var id :| id in unvisited;
        var template := unvisited[id];
        if filter(template) {
          selection := selection + [template];
        }
        SelectedRemove(unvisited, filter, id);
        Shrink(unvisited, id);
        unvisited := unvisited - {id};
      }
      return Ok(selection);
    }
  }

  // Properties of sequences of store operations, stated on the map the
  // methods above leave behind.

  /** After `create(id, t)` succeeds, reading `id` gives `t` and every other id reads as before. */
  lemma ReadAfterCreate<T>(m: map<i32, T>, id: i32, t: T, other: i32)
    ensures Lookup(m[id := t], id) == Some(t)
    ensures other != id ==> Lookup(m[id := t], other) == Lookup(m, other)
  {
  }

  /** Creating under a fresh id adds one to the count; overwriting leaves it alone. */
  lemma CountAfterCreate<T>(m: map<i32, T>, id: i32, t: T)
    ensures |m[id := t]| == if id in m then |m| else |m| + 1
  {
  }

  /** After a delete, `id` reads as absent and every other id reads as before. */
  lemma ReadAfterDelete<T>(m: map<i32, T>, id: i32, other: i32)
    ensures Lookup(m - {id}, id) == None
    ensures other != id ==> Lookup(m - {id}, other) == Lookup(m, other)
  {
  }

  /** Deleting a present id lowers the count by one; deleting an absent id changes nothing, so deleting twice is deleting once. */
  lemma DeleteCountAndIdempotence<T>(m: map<i32, T>, id: i32)
    ensures id in m ==> |m - {id}| == |m| - 1
    ensures id !in m ==> m - {id} == m
    ensures (m - {id}) - {id} == m - {id}
  {
  }
}
