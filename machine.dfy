/** The part of the `transitions` library both managers rely on: a
    declarative list of transitions and the lookup that picks the one a
    trigger fires. */
module Machine {
  import opened Common

  /** One entry of a transition list: `trigger` moves any state of
      `sources` to `dest`. */
  datatype Transition<T, S> = Transition(trigger: T, sources: set<S>, dest: S)

  predicate Matches<T(==), S(==)>(e: Transition<T, S>, s: S, t: T) {
    e.trigger == t && s in e.sources
  }

  /** The destination of the first entry of `table` for trigger `t` whose
      sources include `s`; None when the trigger is not valid in `s`. */
  function Lookup<T(==), S(==)>(table: seq<Transition<T, S>>, s: S, t: T): Option<S> {
    LookupFrom(table, 0, s, t)
  }

  /** The lookup, scanning the table from entry `k` on. */
  function LookupFrom<T(==), S(==)>(table: seq<Transition<T, S>>, k: nat, s: S, t: T): Option<S>
    requires k <= |table|
    decreases |table| - k
  {
    if k == |table| then None
    else if Matches(table[k], s, t) then Some(table[k].dest)
    else LookupFrom(table, k + 1, s, t)
  }

  /** The scan from entry `k` fails exactly when no later entry matches,
      and otherwise yields the destination of the first one that does. */
  lemma {:induction false} LookupFromFirstMatch<T, S>(table: seq<Transition<T, S>>, k: nat, s: S, t: T)
    requires k <= |table|
    ensures LookupFrom(table, k, s, t).None? <==>
              forall i :: k <= i < |table| ==> !Matches(table[i], s, t)
    ensures LookupFrom(table, k, s, t).Some? ==>
              exists i :: k <= i < |table| && Matches(table[i], s, t)
                          && table[i].dest == LookupFrom(table, k, s, t).value
                          && forall j :: k <= j < i ==> !Matches(table[j], s, t)
    decreases |table| - k
  {
    if k < |table| && !Matches(table[k], s, t) {
      LookupFromFirstMatch(table, k + 1, s, t);
      if LookupFrom(table, k + 1, s, t).Some? {
        var i :| k + 1 <= i < |table| && Matches(table[i], s, t)
                 && table[i].dest == LookupFrom(table, k + 1, s, t).value
                 && forall j :: k + 1 <= j < i ==> !Matches(table[j], s, t);
        assert forall j :: k <= j < i ==> !Matches(table[j], s, t);
      }
    }
  }

  /** A trigger is invalid in `s` exactly when no entry of the table has
      it with `s` among its sources; otherwise it leads to the destination
      of the first entry that does, as the `transitions` library picks. */
  lemma LookupFirstMatch<T, S>(table: seq<Transition<T, S>>, s: S, t: T)
    ensures Lookup(table, s, t).None? <==> forall i :: 0 <= i < |table| ==> !Matches(table[i], s, t)
    ensures Lookup(table, s, t).Some? ==>
              exists i :: 0 <= i < |table| && Matches(table[i], s, t)
                          && table[i].dest == Lookup(table, s, t).value
                          && forall j :: 0 <= j < i ==> !Matches(table[j], s, t)
  {
    LookupFromFirstMatch(table, 0, s, t);
  }
}
