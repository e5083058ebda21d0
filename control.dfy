/** The control panel's pending changes: option edits are buffered, one per (topic, option) pair,
    read back in preference to the committed options, and dispatched all at once on request. */
module Control {

  /** A buffered edit of one option of one topic. */
  datatype Change<V> = Change(topic: string, option: string, value: V)

  /** The outcome of reading an option: a value, `undefined` for an option the committed topic
      does not have, or the TypeError of indexing a topic that does not exist. */
  datatype Lookup<V> = Found(value: V) | Undefined | TypeError

  predicate IsFor<V>(c: Change<V>, topic: string, option: string) {
    c.topic == topic && c.option == option
  }

  /** `postponedChanges.find(change => change.topic === topic && change.option === option)`, as
      the position of the first such entry, or `|pending|` when there is none. */
  function FindChange<V>(pending: seq<Change<V>>, topic: string, option: string): (k: nat)
    ensures k <= |pending|
    ensures k < |pending| ==> IsFor(pending[k], topic, option)
    ensures forall i :: 0 <= i < k ==> !IsFor(pending[i], topic, option)
  {
    if pending == [] then 0
    else if IsFor(pending[0], topic, option) then 0
    else 1 + FindChange(pending[1..], topic, option)
  }

  /** `_getActualOptionValue`: the value of the first pending entry for the pair, whatever that
      value is (the test is on the entry, not on its value); otherwise the committed option. */
  function GetActualOptionValue<V>(pending: seq<Change<V>>, committed: map<string, map<string, V>>,
                                   topic: string, option: string): (r: Lookup<V>)
    ensures (exists i :: 0 <= i < |pending| && IsFor(pending[i], topic, option)) ==>
              r.Found? && exists i :: 0 <= i < |pending| && IsFor(pending[i], topic, option) && r.value == pending[i].value
    ensures forall i :: (0 <= i < |pending| && IsFor(pending[i], topic, option) &&
                         forall j :: 0 <= j < i ==> !IsFor(pending[j], topic, option)) ==>
              r == Found(pending[i].value)
    ensures (forall i :: 0 <= i < |pending| ==> !IsFor(pending[i], topic, option)) ==>
              r == (if topic !in committed then TypeError
                    else if option !in committed[topic] then Undefined
                    else Found(committed[topic][option]))
  {
    var k := FindChange(pending, topic, option);
    if k < |pending| then Found(pending[k].value)
    else if topic !in committed then TypeError
    else if option !in committed[topic] then Undefined
    else Found(committed[topic][option])
  }

  /** `postponedC.filter(change => change.topic !== topic || change.option !== option)`. */
  function Without<V>(pending: seq<Change<V>>, topic: string, option: string): (r: seq<Change<V>>)
    ensures |r| <= |pending|
  {
    if pending == [] then []
    else (if IsFor(pending[0], topic, option) then [] else [pending[0]]) + Without(pending[1..], topic, option)
  }

  /** The filter keeps exactly the entries for other pairs. */
  lemma {:induction false} WithoutMembers<V>(pending: seq<Change<V>>, topic: string, option: string)
    ensures var r := Without(pending, topic, option);
            (forall i :: 0 <= i < |r| ==> r[i] in pending && !IsFor(r[i], topic, option)) &&
            (forall i :: 0 <= i < |pending| && !IsFor(pending[i], topic, option) ==> pending[i] in r)
  {
    if pending != [] {
      var rest := pending[1..];
      WithoutMembers(rest, topic, option);
      assert forall i :: 0 < i < |pending| ==> pending[i] == rest[i - 1];
    }
  }

  /** The filter keeps the relative order of what it keeps: filtering a concatenation is
      concatenating the filtered parts. */
  lemma {:induction false} WithoutConcat<V>(a: seq<Change<V>>, b: seq<Change<V>>, topic: string, option: string)
    ensures Without(a + b, topic, option) == Without(a, topic, option) + Without(b, topic, option)
  {
    if a != [] {
      assert (a + b)[1..] == a[1..] + b;
      WithoutConcat(a[1..], b, topic, option);
    } else {
      assert a + b == b;
    }
  }

  /** The value of the first pending entry for the pair, if any. */
  function FirstPending<V>(pending: seq<Change<V>>, topic: string, option: string): Lookup<V> {
    if pending == [] then Undefined
    else if IsFor(pending[0], topic, option) then Found(pending[0].value)
    else FirstPending(pending[1..], topic, option)
  }

  /** `FirstPending` is the value at the entry `find` returns. */
  lemma {:induction false} FirstPendingIsFound<V>(pending: seq<Change<V>>, topic: string, option: string)
    ensures var k := FindChange(pending, topic, option);
            FirstPending(pending, topic, option) == if k < |pending| then Found(pending[k].value) else Undefined
  {
    if pending != [] && !IsFor(pending[0], topic, option) {
      FirstPendingIsFound(pending[1..], topic, option);
    }
  }

  /** Filtering out one pair does not change the first entry for another pair. */
  lemma {:induction false} FindWithout<V>(pending: seq<Change<V>>, topic: string, option: string, topic': string, option': string)
    requires topic' != topic || option' != option
    ensures FirstPending(Without(pending, topic, option), topic', option') == FirstPending(pending, topic', option')
  {
    if pending != [] {
      var w := Without(pending, topic, option);
      FindWithout(pending[1..], topic, option, topic', option');
      if IsFor(pending[0], topic, option) {
        assert w == [] + Without(pending[1..], topic, option);
        assert w == Without(pending[1..], topic, option);
        assert !IsFor(pending[0], topic', option');
        assert FirstPending(pending, topic', option') == FirstPending(pending[1..], topic', option');
      } else {
        assert w == [pending[0]] + Without(pending[1..], topic, option);
        assert w[0] == pending[0] && w[1..] == Without(pending[1..], topic, option);
      }
    }
  }

  /** Appending an entry for another pair does not change the first entry for a pair. */
  lemma {:induction false} FindAppend<V>(pending: seq<Change<V>>, c: Change<V>, topic: string, option: string)
    requires !IsFor(c, topic, option)
    ensures FirstPending(pending + [c], topic, option) == FirstPending(pending, topic, option)
  {
    if pending != [] {
      assert (pending + [c])[1..] == pending[1..] + [c];
      FindAppend(pending[1..], c, topic, option);
    } else {
      assert ([] + [c])[1..] == [];
    }
  }

  /** The new pending list after `_addNewPosponedChange(topic, option, value)`. */
  function WithChange<V>(pending: seq<Change<V>>, topic: string, option: string, value: V): seq<Change<V>> {
    Without(pending, topic, option) + [Change(topic, option, value)]
  }

  /** After the edit there is exactly one entry for the pair: the last one, holding the new value;
      every entry for another pair is kept and nothing else is added. */
  lemma AddedChange<V>(pending: seq<Change<V>>, topic: string, option: string, value: V)
    ensures var r := WithChange(pending, topic, option, value);
            |r| > 0 && r[|r| - 1] == Change(topic, option, value) &&
            (forall i :: 0 <= i < |r| - 1 ==> !IsFor(r[i], topic, option)) &&
            (forall c :: c in r[..|r| - 1] <==> c in pending && !IsFor(c, topic, option))
  {
    var r := WithChange(pending, topic, option, value);
    WithoutMembers(pending, topic, option);
    assert r[..|r| - 1] == Without(pending, topic, option);
    forall i | 0 <= i < |r| - 1 ensures !IsFor(r[i], topic, option) {
      assert r[i] in Without(pending, topic, option);
    }
  }

  /** Reading the pair back after the edit gives the new value, and reading any other pair gives
      what it gave before. */
  lemma ReadBack<V>(pending: seq<Change<V>>, committed: map<string, map<string, V>>,
                    topic: string, option: string, value: V, topic': string, option': string)
    ensures GetActualOptionValue(WithChange(pending, topic, option, value), committed, topic, option) == Found(value)
    ensures topic' != topic || option' != option ==>
              GetActualOptionValue(WithChange(pending, topic, option, value), committed, topic', option') ==
              GetActualOptionValue(pending, committed, topic', option')
  {
    var r := WithChange(pending, topic, option, value);
    AddedChange(pending, topic, option, value);
    FirstChangeOf(r, topic, option, |r| - 1);
    if topic' != topic || option' != option {
      var w := Without(pending, topic, option);
      FindWithout(pending, topic, option, topic', option');
      FindAppend(w, Change(topic, option, value), topic', option');
      FirstPendingIsFound(r, topic', option');
      FirstPendingIsFound(pending, topic', option');
    }
  }

  /** The entry `find` returns is the first one for the pair. */
  lemma {:induction false} FirstChangeOf<V>(pending: seq<Change<V>>, topic: string, option: string, k: nat)
    requires k < |pending| && IsFor(pending[k], topic, option)
    requires forall i :: 0 <= i < k ==> !IsFor(pending[i], topic, option)
    ensures FindChange(pending, topic, option) == k
  {
    if k > 0 {
      FirstChangeOf(pending[1..], topic, option, k - 1);
    }
  }

  /** The control panel component (`InfoLegend`): its pending list and the log of the changes it
      has dispatched as CONTROL_CHANGE actions. */
  class InfoLegend<V> {
    var postponedChanges: seq<Change<V>>
    var dispatched: seq<Change<V>>

    constructor ()
      ensures postponedChanges == [] && dispatched == []
    {
      postponedChanges := [];
      dispatched := [];
    }

    /** `_addNewPosponedChange`: a filtered copy of the list with the new entry appended replaces
        the list; the old list value itself is not altered. */
    method AddNewPostponedChange(topic: string, option: string, value: V)
      modifies this`postponedChanges
      ensures postponedChanges == WithChange(old(postponedChanges), topic, option, value)
    {
      var copy := postponedChanges;
      var filtered := Without(copy, topic, option);
      filtered := filtered + [Change(topic, option, value)];
      postponedChanges := filtered;
    }

    /** `handleChange`: records the edit and dispatches nothing. */
    method HandleChange(topic: string, option: string, value: V)
      modifies this`postponedChanges
      ensures postponedChanges == WithChange(old(postponedChanges), topic, option, value)
      ensures dispatched == old(dispatched)
    {
      AddNewPostponedChange(topic, option, value);
    }

    /** `handleRunChange`: every pending change is dispatched, in list order, and the list is
        emptied (after each dispatch; the loop runs over the list as it was). */
    method HandleRunChange()
      modifies this`postponedChanges, this`dispatched
      ensures dispatched == old(dispatched) + old(postponedChanges)
      ensures postponedChanges == []
    {
      var changes := postponedChanges;
      var i := 0;
      while i < |changes|
        invariant 0 <= i <= |changes|
        invariant dispatched == old(dispatched) + changes[..i]
        invariant postponedChanges == if i == 0 then changes else []
      {
        dispatched := dispatched + [changes[i]];
        postponedChanges := [];
        assert changes[..i + 1] == changes[..i] + [changes[i]];
        i := i + 1;
      }
      assert changes[..i] == changes;
    }
  }
}
