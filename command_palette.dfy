/**
 * The search palette (src/components/CommandPalette.tsx): the tasks whose
 * title contains the query, ignoring case; closing the palette clears the
 * query; choosing a row toggles that task.
 */
module CommandPalette {
  import opened Types
  import opened TaskSeq
  import opened TaskStore
  import opened JsString
  import opened UserContext

  /** `task.title.toLowerCase().includes(query.toLowerCase())`. */
  predicate Matches(t: Task, query: string) {
    Contains(Lower(t.title), Lower(query))
  }

  function FilteredTasks(ts: seq<Task>, query: string): (r: seq<Task>)
    ensures forall t :: t in r <==> t in ts && Matches(t, query)
  {
    Filter(ts, (t: Task) => Matches(t, query))
  }

  /** The result keeps the tasks' order: they sit at strictly increasing positions of the list. */
  lemma FilteredInOrder(ts: seq<Task>, query: string)
    ensures exists idx: seq<int> :: |idx| == |FilteredTasks(ts, query)|
              && (forall k :: 0 <= k < |idx| ==> 0 <= idx[k] < |ts| && ts[idx[k]] == FilteredTasks(ts, query)[k])
              && (forall k, l :: 0 <= k < l < |idx| ==> idx[k] < idx[l])
  {
    var idx := KeptIndices(ts, (t: Task) => Matches(t, query));
    KeptIndicesEmbed(ts, (t: Task) => Matches(t, query));
  }

  /** An empty query lists every task, in order. */
  lemma EmptyQueryListsAll(ts: seq<Task>)
    ensures FilteredTasks(ts, "") == ts
  {
    FilterAll(ts, (t: Task) => Matches(t, ""));
  }

  /** Queries that differ only in letter case select the same tasks. */
  lemma CaseInsensitive(ts: seq<Task>, q1: string, q2: string)
    requires Lower(q1) == Lower(q2)
    ensures FilteredTasks(ts, q1) == FilteredTasks(ts, q2)
  {
    FilterSameTest(ts, (t: Task) => Matches(t, q1), (t: Task) => Matches(t, q2));
  }

  /** In particular, lower-casing the query changes nothing. */
  lemma LowerQuerySameResult(ts: seq<Task>, q: string)
    ensures FilteredTasks(ts, Lower(q)) == FilteredTasks(ts, q)
  {
    LowerIdempotent(q);
    CaseInsensitive(ts, Lower(q), q);
  }

  class Palette {
    var query: string

    constructor()
      ensures query == ""
    {
      query := "";
    }

    method SetQuery(text: string)
      modifies this
      ensures query == text
    {
      query := text;
    }

    /** The effect on `isOpen`: closing clears the query. */
    method Evaluate(isOpen: bool)
      modifies this
      ensures !isOpen ==> query == ""
      ensures isOpen ==> query == old(query)
    {
      if !isOpen {
        query := "";
      }
    }

    /** Clicking a listed row (or its check button) toggles that task. */
    method Select(s: Session, t: Task)
      requires s.Valid() && t in FilteredTasks(s.tasks, query)
      modifies s
      ensures s.Valid()
      ensures s.State() == Toggled(old(s.State()), t.id)
    {
      s.ToggleTask(t.id);
    }
  }
}
