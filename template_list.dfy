/**
 * The list page of the frontend (frontend/src/pages/TemplateList.tsx) keeps
 * its own copy of the stored templates. After a delete it filters that copy
 * instead of fetching the list again; its update and create handlers would
 * likewise replace or append an entry, but the page never calls them (the
 * forms send their own requests and closing a form refetches the list). This
 * module models the three list updates and proves when they keep the copy in
 * step with the store.
 */
module TemplateList {
  import opened Wrappers
  import opened Db
  import opened Api

  /** `templates.filter((template) => template.id !== id)`. */
  function WithoutId(ts: seq<Template>, id: i32): (r: seq<Template>)
    ensures |r| <= |ts|
    ensures forall t :: t in r <==> t in ts && t.id != id
  {
    if ts == [] then []
    else if ts[0].id != id then [ts[0]] + WithoutId(ts[1..], id)
    else WithoutId(ts[1..], id)
  }

  /** Filtering works piece by piece, so the kept templates stay in their original order. */
  lemma {:induction false} WithoutIdConcat(a: seq<Template>, b: seq<Template>, id: i32)
    ensures WithoutId(a + b, id) == WithoutId(a, id) + WithoutId(b, id)
  {
    if a == [] {
      assert a + b == b;
    } else {
      assert (a + b)[0] == a[0];
      assert (a + b)[1..] == a[1..] + b;
      WithoutIdConcat(a[1..], b, id);
    }
  }

  /** A list without `id` is left as it is. */
  lemma {:induction false} WithoutIdAbsent(ts: seq<Template>, id: i32)
    requires forall t :: t in ts ==> t.id != id
    ensures WithoutId(ts, id) == ts
  {
    if ts != [] {
      WithoutIdAbsent(ts[1..], id);
    }
  }

  /** Deleting the same id twice is deleting it once. */
  lemma WithoutIdIdempotent(ts: seq<Template>, id: i32)
    ensures WithoutId(WithoutId(ts, id), id) == WithoutId(ts, id)
  {
    WithoutIdAbsent(WithoutId(ts, id), id);
  }

  /** `templates.map((t) => (t.id === updated.id ? updated : t))`. */
  function ReplaceById(ts: seq<Template>, updated: Template): (r: seq<Template>)
    ensures |r| == |ts|
    ensures forall i :: 0 <= i < |ts| ==> r[i] == if ts[i].id == updated.id then updated else ts[i]
  {
    if ts == [] then []
    else [if ts[0].id == updated.id then updated else ts[0]] + ReplaceById(ts[1..], updated)
  }

  /** `[...templates, created]`. */
  function Appended(ts: seq<Template>, created: Template): (r: seq<Template>)
    ensures |r| == |ts| + 1 && r[|ts|] == created
    ensures r[..|ts|] == ts
  {
    ts + [created]
  }

  /** The ids in a list. */
  ghost function IdsOf(ts: seq<Template>): set<i32>
  {
    set t | t in ts :: t.id
  }

  /** No id occurs twice in the list. */
  ghost predicate DistinctIds(ts: seq<Template>)
  {
    forall i, j :: 0 <= i < j < |ts| ==> ts[i].id != ts[j].id
  }

  /** The list read as the store's map: each template under its own id, the first one winning. */
  ghost function ById(ts: seq<Template>): map<i32, Template>
  {
    if ts == [] then map[] else ById(ts[1..])[ts[0].id := ts[0]]
  }

  /** The list holds exactly the store's templates, each once. */
  ghost predicate Mirrors(ts: seq<Template>, store: map<i32, Template>)
  {
    DistinctIds(ts) && ById(ts) == store
  }

  /** The ids the list maps are exactly the ids in it. */
  lemma {:induction false} ByIdKeys(ts: seq<Template>)
    ensures ById(ts).Keys == IdsOf(ts)
  {
    if ts != [] {
      ByIdKeys(ts[1..]);
      assert ts == [ts[0]] + ts[1..];
      assert IdsOf(ts) == {ts[0].id} + IdsOf(ts[1..]);
    }
  }

  /** With distinct ids, the map has one entry per list element. */
  lemma {:induction false} ByIdSize(ts: seq<Template>)
    requires DistinctIds(ts)
    ensures |ById(ts)| == |ts|
  {
    if ts != [] {
      assert ts == [ts[0]] + ts[1..];
      DistinctCons(ts[0], ts[1..]);
      ByIdSize(ts[1..]);
      ByIdKeys(ts[1..]);
    }
  }

  /** Filtering by id removes exactly that id from the map the list stands for. */
  lemma {:induction false} ByIdWithoutId(ts: seq<Template>, id: i32)
    ensures ById(WithoutId(ts, id)) == ById(ts) - {id}
  {
    if ts != [] {
      ByIdWithoutId(ts[1..], id);
      if ts[0].id != id {
        assert ([ts[0]] + WithoutId(ts[1..], id))[1..] == WithoutId(ts[1..], id);
        assert ById(ts[1..])[ts[0].id := ts[0]] - {id} == (ById(ts[1..]) - {id})[ts[0].id := ts[0]];
      } else {
        assert ById(ts[1..])[id := ts[0]] - {id} == ById(ts[1..]) - {id};
      }
    }
  }

  /** Replacing by id updates the map at that id, when the list has it, and changes nothing otherwise. */
  lemma {:induction false} ByIdReplace(ts: seq<Template>, updated: Template)
    ensures ById(ReplaceById(ts, updated))
            == if updated.id in ById(ts) then ById(ts)[updated.id := updated] else ById(ts)
  {
    if ts != [] {
      var head := if ts[0].id == updated.id then updated else ts[0];
      ByIdReplace(ts[1..], updated);
      assert ReplaceById(ts, updated) == [head] + ReplaceById(ts[1..], updated);
      assert ([head] + ReplaceById(ts[1..], updated))[1..] == ReplaceById(ts[1..], updated);
      if ts[0].id != updated.id {
        var m := ById(ts[1..]);
        assert m[updated.id := updated][ts[0].id := ts[0]] == m[ts[0].id := ts[0]][updated.id := updated];
      }
    }
  }

  /** Appending a template whose id is new adds it to the map under its id. */
  lemma {:induction false} ByIdAppended(ts: seq<Template>, created: Template)
    requires created.id !in IdsOf(ts)
    ensures ById(Appended(ts, created)) == ById(ts)[created.id := created]
  {
    if ts != [] {
      assert Appended(ts, created)[1..] == Appended(ts[1..], created);
      ByIdAppended(ts[1..], created);
      var m := ById(ts[1..]);
      assert m[created.id := created][ts[0].id := ts[0]] == m[ts[0].id := ts[0]][created.id := created];
    }
  }

  /** After `handleDelete(id)` the list has no template with `id`, keeps every other one, and still mirrors the store after `delete_template(id)`. */
  lemma DeleteKeepsMirror(ts: seq<Template>, store: map<i32, Template>, id: i32)
    requires Mirrors(ts, store)
    ensures forall t :: t in WithoutId(ts, id) ==> t.id != id
    ensures Mirrors(WithoutId(ts, id), store - {id})
  {
    ByIdWithoutId(ts, id);
    WithoutIdDistinct(ts, id);
  }

  /** A list with distinct ids is one whose head id is not in its tail, which has distinct ids too. */
  lemma DistinctCons(head: Template, tail: seq<Template>)
    ensures DistinctIds([head] + tail) <==> DistinctIds(tail) && head.id !in IdsOf(tail)
  {
    var ts := [head] + tail;
    if DistinctIds(ts) {
      forall i, j | 0 <= i < j < |tail| ensures tail[i].id != tail[j].id {
        assert ts[i + 1] == tail[i] && ts[j + 1] == tail[j];
      }
      forall t | t in tail ensures t.id != head.id {
        var k :| 0 <= k < |tail| && tail[k] == t;
        assert ts[0] == head && ts[k + 1] == t;
        assert ts[0].id != ts[k + 1].id;
      }
    }
    if DistinctIds(tail) && head.id !in IdsOf(tail) {
      forall i, j | 0 <= i < j < |ts| ensures ts[i].id != ts[j].id {
        if i == 0 {
          assert ts[j] in tail;
        } else {
          assert ts[i] == tail[i - 1] && ts[j] == tail[j - 1];
        }
      }
    }
  }

  /** Filtering keeps ids distinct. */
  lemma {:induction false} WithoutIdDistinct(ts: seq<Template>, id: i32)
    requires DistinctIds(ts)
    ensures DistinctIds(WithoutId(ts, id))
  {
    if ts != [] {
      assert ts == [ts[0]] + ts[1..];
      DistinctCons(ts[0], ts[1..]);
      WithoutIdDistinct(ts[1..], id);
      if ts[0].id != id {
        var rest := WithoutId(ts[1..], id);
        assert IdsOf(rest) <= IdsOf(ts[1..]);
        DistinctCons(ts[0], rest);
      }
    }
  }

  /** After `handleUpdateTemplate(u)` for a stored id, the list mirrors the store after `update_template(u.id, u)`. */
  lemma UpdateKeepsMirror(ts: seq<Template>, store: map<i32, Template>, updated: Template)
    requires Mirrors(ts, store) && updated.id in store
    ensures Mirrors(ReplaceById(ts, updated), store[updated.id := updated])
  {
    ByIdReplace(ts, updated);
  }

  /**
   * Why `UpdateKeepsMirror` needs the id to be stored: `update_template`
   * inserts an id it does not have, but replacing by id leaves a list without
   * that id as it is, so the list falls out of step with the store.
   */
  lemma UpdateOfUnstoredIdBreaksMirror(ts: seq<Template>, store: map<i32, Template>, updated: Template)
    requires Mirrors(ts, store) && updated.id !in store
    ensures !Mirrors(ReplaceById(ts, updated), store[updated.id := updated])
  {
    ByIdReplace(ts, updated);
  }

  /**
   * After `handleCreateTemplate` appends a template under an id the store did
   * not have, the list mirrors the store after `create_template` of it.
   */
  lemma CreateKeepsMirror(ts: seq<Template>, store: map<i32, Template>, created: Template)
    requires Mirrors(ts, store) && created.id !in store
    ensures Mirrors(Appended(ts, created), store[created.id := created])
  {
    ByIdKeys(ts);
    ByIdAppended(ts, created);
  }

  /**
   * Two successful creates through `create_template_handler` as written both
   * answer with id 10. Appended by `handleCreateTemplate`, they give a list
   * holding two templates with the same id (it can mirror no store), and
   * deleting either one drops both from the list.
   */
  lemma CreatedIdsCollide(ts: seq<Template>, p: PartialTemplate, q: PartialTemplate)
    ensures CreateTemplateHandler(p, Ok(())).Ok? && CreateTemplateHandler(q, Ok(())).Ok?
    ensures var a, b := CreateTemplateHandler(p, Ok(())).value, CreateTemplateHandler(q, Ok(())).value;
            var shown := Appended(Appended(ts, a), b);
            && a.id == b.id
            && !DistinctIds(shown)
            && (forall store :: !Mirrors(shown, store))
            && a !in WithoutId(shown, a.id) && b !in WithoutId(shown, a.id)
  {
  }

  /**
   * With the id the database assigned, a create keeps the list in step with
   * the store whenever that id is new, as a `SERIAL` id is.
   */
  lemma CreateWithAssignedIdKeepsMirror(ts: seq<Template>, store: map<i32, Template>, p: PartialTemplate, dbId: i32)
    requires Mirrors(ts, store) && dbId !in store
    ensures CreateTemplateHandlerReturningId(p, Ok(dbId)).Ok?
    ensures var created := CreateTemplateHandlerReturningId(p, Ok(dbId)).value;
            Mirrors(Appended(ts, created), store[dbId := created])
  {
    CreateKeepsMirror(ts, store, CreateTemplateHandlerReturningId(p, Ok(dbId)).value);
  }

  /**
   * Two deletes started from the same render: the handler that finishes
   * second writes back that render's list without only its own id, so the
   * template the first one removed reappears, and the list no longer
   * mirrors the store after both deletes.
   */
  lemma OverlappingDeletesLoseUpdate(rendered: seq<Template>, store: map<i32, Template>, first: i32, second: i32)
    requires Mirrors(rendered, store) && first in store && first != second
    ensures store[first] in WithoutId(rendered, second)
    ensures !Mirrors(WithoutId(rendered, second), store - {first} - {second})
  {
    ByIdWithoutId(rendered, second);
    ByIdKeys(rendered);
    var t :| t in rendered && t.id == first;
    assert ById(rendered)[first] == t by {
      ByIdAt(rendered, t);
    }
    assert first in ById(WithoutId(rendered, second));
    assert first !in store - {first} - {second};
  }

  /**
   * Two deletes that each filter the list current when their request returns
   * (`setTemplates((prev) => prev.filter(...))`) compose: after both, the
   * list mirrors the store after both `delete_template` calls, in either order.
   */
  lemma OverlappingDeletesFromCurrentKeepMirror(ts: seq<Template>, store: map<i32, Template>, first: i32, second: i32)
    requires Mirrors(ts, store)
    ensures Mirrors(WithoutId(WithoutId(ts, first), second), store - {first} - {second})
    ensures Mirrors(WithoutId(WithoutId(ts, second), first), store - {first} - {second})
  {
    DeleteKeepsMirror(ts, store, first);
    DeleteKeepsMirror(WithoutId(ts, first), store - {first}, second);
    DeleteKeepsMirror(ts, store, second);
    DeleteKeepsMirror(WithoutId(ts, second), store - {second}, first);
    assert store - {second} - {first} == store - {first} - {second};
  }

  /** With distinct ids, the map holds each listed template under its id. */
  lemma {:induction false} ByIdAt(ts: seq<Template>, t: Template)
    requires DistinctIds(ts) && t in ts
    ensures t.id in ById(ts) && ById(ts)[t.id] == t
  {
    assert ts == [ts[0]] + ts[1..];
    DistinctCons(ts[0], ts[1..]);
    if t != ts[0] {
      ByIdAt(ts[1..], t);
      assert t.id in IdsOf(ts[1..]);
    }
  }

  /** A list that mirrors the store is as long as `count_templates` says. */
  lemma MirrorCounts(ts: seq<Template>, store: map<i32, Template>)
    requires Mirrors(ts, store)
    ensures |ts| == |store|
  {
    ByIdSize(ts);
  }

  /**
   * The state of the list page: the templates it shows. Each handler awaits
   * its request first; the request's outcome is a parameter, and when the
   * request throws the handler only logs, leaving the list as it was. A
   * handler computes the new list from `rendered`, the list it captured
   * when the page last rendered, not from the list at the time its request
   * returns; the two differ when another handler finished in between.
   */
  class TemplateListPage {
    var templates: seq<Template>

    /** `useState<Template[]>([])`. */
    constructor ()
      ensures templates == []
    {
      templates := [];
    }

    /** `handleDelete(id)`; `deleted` says whether the DELETE request succeeded. */
    method HandleDelete(rendered: seq<Template>, id: i32, deleted: bool)
      modifies this
      ensures templates == if deleted then WithoutId(rendered, id) else old(templates)
    {
      if deleted {
        var updatedTemplates := WithoutId(rendered, id);
        templates := updatedTemplates;
      }
    }

    /**
     * `handleDelete(id)` with a functional state update, filtering the list
     * current when the DELETE returns instead of the one captured at render.
     */
    method HandleDeleteFromCurrent(id: i32, deleted: bool)
      modifies this
      ensures templates == if deleted then WithoutId(old(templates), id) else old(templates)
    {
      if deleted {
        templates := WithoutId(templates, id);
      }
    }

    /** `handleUpdateTemplate(updated)`; `updatedOnServer` says whether the PUT request succeeded. */
    method HandleUpdateTemplate(rendered: seq<Template>, updated: Template, updatedOnServer: bool)
      modifies this
      ensures templates == if updatedOnServer then ReplaceById(rendered, updated) else old(templates)
    {
      if updatedOnServer {
        var updatedTemplates := ReplaceById(rendered, updated);
        templates := updatedTemplates;
      }
    }

    /** `handleCreateTemplate`; `response` is the template the POST request returned, or `None` if it threw. */
    method HandleCreateTemplate(rendered: seq<Template>, response: Option<Template>)
      modifies this
      ensures templates == if response.Some? then Appended(rendered, response.value) else old(templates)
    {
      if response.Some? {
        templates := Appended(rendered, response.value);
      }
    }
  }
}
