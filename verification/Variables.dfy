/** Alias resolution: a memoised, cycle-detecting recursion that must agree with
    plainly following the chain of aliases. */
module Variables {
  import opened Common

  datatype VariableValue = Boolean(flag: bool) | Float(number: real) | Text(text: string)
    | Color(red: real, green: real, blue: real, alpha: real)

  /** A mode's value: an alias of another variable, a value, or something unusable. */
  datatype Source = Alias(id: string) | Value(value: VariableValue) | Unusable

  datatype Variable = Variable(valuesByMode: map<string, Source>, collectionId: string)

  /** What the host answers: variables by id, and the default mode of each collection
      it can find that names one. */
  datatype Library = Library(variables: map<string, Variable>, defaultModes: map<string, string>)

  datatype Resolution = Resolved(value: VariableValue) | NotFound | LimitExceeded

  /** A variable in a mode. */
  type Key = (string, string)

  datatype Next = Stop(result: Resolution) | Follow(key: Key)

  /** One link of the chain. */
  function NextOf(lib: Library, key: Key): Next {
    if key.0 !in lib.variables then Stop(NotFound)
    else
      var variable := lib.variables[key.0];
      var values := variable.valuesByMode;
      var mode := if key.1 in values then key.1
                  else if variable.collectionId in lib.defaultModes then lib.defaultModes[variable.collectionId]
                  else key.1;
      if mode !in values then Stop(NotFound)
      else
        match values[mode]
        case Alias(id) => Follow((id, mode))
        case Value(value) => Stop(Resolved(value))
        case Unusable => Stop(NotFound)
  }

  // ---------- following the chain ----------

  /** The pair reached after `n` links, if the chain is that long. */
  function Iter(lib: Library, key: Key, n: nat): Option<Key> {
    if n == 0 then Some(key)
    else
      var before := Iter(lib, key, n - 1);
      if before.None? then None
      else
        match NextOf(lib, before.value)
        case Stop(_) => None
        case Follow(next) => Some(next)
  }

  /** The chain stops after `n` links, with this answer. */
  predicate EndsWith(lib: Library, key: Key, n: nat, result: Resolution) {
    Iter(lib, key, n).Some? && NextOf(lib, Iter(lib, key, n).value) == Stop(result)
  }

  ghost predicate NeverEnds(lib: Library, key: Key) {
    forall n: nat :: Iter(lib, key, n).Some?
  }

  lemma {:induction false} IterFromNext(lib: Library, key: Key, n: nat)
    requires NextOf(lib, key).Follow?
    ensures Iter(lib, key, n + 1) == Iter(lib, NextOf(lib, key).key, n)
  {
    if n > 0 {
      IterFromNext(lib, key, n - 1);
    } else {
      assert Iter(lib, key, 0) == Some(key);
    }
  }

  lemma {:induction false} IterSum(lib: Library, key: Key, m: nat, n: nat)
    requires Iter(lib, key, m).Some?
    ensures Iter(lib, key, m + n) == Iter(lib, Iter(lib, key, m).value, n)
  {
    if n > 0 {
      IterSum(lib, key, m, n - 1);
    }
  }

  lemma {:induction false} IterShorter(lib: Library, key: Key, m: nat, n: nat)
    requires Iter(lib, key, n).Some? && m <= n
    ensures Iter(lib, key, m).Some?
  {
    if m < n {
      IterShorter(lib, key, m, n - 1);
    }
  }

  /** A pair that comes round to itself is on a chain without end. */
  lemma {:induction false} ReturnNeverEnds(lib: Library, key: Key, period: nat, n: nat)
    requires period > 0 && Iter(lib, key, period) == Some(key)
    ensures Iter(lib, key, n).Some?
    decreases n
  {
    if n < period {
      IterShorter(lib, key, n, period);
    } else {
      ReturnNeverEnds(lib, key, period, n - period);
      IterSum(lib, key, period, n - period);
    }
  }

  lemma {:induction false} RepeatNeverEnds(lib: Library, key: Key, i: nat, j: nat)
    requires i < j && Iter(lib, key, i).Some? && Iter(lib, key, i) == Iter(lib, key, j)
    ensures NeverEnds(lib, key)
  {
    var there := Iter(lib, key, i).value;
    IterSum(lib, key, i, j - i);
    forall n: nat
      ensures Iter(lib, key, n).Some?
    {
      if n < i {
        IterShorter(lib, key, n, i);
      } else {
        ReturnNeverEnds(lib, there, j - i, n - i);
        IterSum(lib, key, i, n - i);
      }
    }
  }

  // ---------- the memo-free resolver ----------

  /** A set of pairs that no link leaves. */
  ghost predicate Closed(lib: Library, known: set<Key>) {
    forall key :: key in known && NextOf(lib, key).Follow? ==> NextOf(lib, key).key in known
  }

  /** Every pair a chain from `key` can visit: `key`, and each alias target in each
      mode any variable has. */
  function Universe(lib: Library, key: Key): set<Key> {
    {key} + (set id, mode | id in AliasTargets(lib) && mode in Modes(lib) :: (id, mode))
  }

  function Modes(lib: Library): set<string> {
    set v, mode | v in lib.variables && mode in lib.variables[v].valuesByMode :: mode
  }

  function AliasTargets(lib: Library): set<string> {
    set v, mode | v in lib.variables && mode in lib.variables[v].valuesByMode
      && lib.variables[v].valuesByMode[mode].Alias? :: lib.variables[v].valuesByMode[mode].id
  }

  lemma {:induction false} UniverseIsClosed(lib: Library, key: Key)
    ensures key in Universe(lib, key) && Closed(lib, Universe(lib, key))
  {
  }

  /** The resolver without its memo: it ends because the stack grows within `known`. */
  function Plain(lib: Library, known: set<Key>, key: Key, stack: set<Key>): Resolution
    requires Closed(lib, known) && key in known
    decreases known - stack
  {
    if key in stack then LimitExceeded
    else
      match NextOf(lib, key)
      case Stop(result) => result
      case Follow(next) => Plain(lib, known, next, stack + {key})
  }

  /** What resolving means: the memo-free result from an empty stack. */
  function Meaning(lib: Library, key: Key): Resolution {
    UniverseIsClosed(lib, key);
    Plain(lib, Universe(lib, key), key, {})
  }

  /** Everything on the stack leads, in at least one link, to `key`. */
  ghost predicate LeadsTo(lib: Library, stack: set<Key>, key: Key) {
    forall s :: s in stack ==> exists n: nat :: n > 0 && Iter(lib, s, n) == Some(key)
  }

  lemma {:induction false} LeadsFurther(lib: Library, stack: set<Key>, key: Key)
    requires LeadsTo(lib, stack, key) && NextOf(lib, key).Follow?
    ensures LeadsTo(lib, stack + {key}, NextOf(lib, key).key)
  {
    var next := NextOf(lib, key).key;
    forall s | s in stack + {key}
      ensures exists n: nat :: n > 0 && Iter(lib, s, n) == Some(next)
    {
      if s == key {
        assert Iter(lib, key, 0) == Some(key);
        assert Iter(lib, key, 1) == Some(next);
      } else {
        var n: nat :| n > 0 && Iter(lib, s, n) == Some(key);
        assert Iter(lib, s, n + 1) == Some(next);
      }
    }
  }

  /** A chain that stops is resolved to where it stops, from any stack that leads to
      its start: no member of the stack can be met again. */
  lemma {:induction false} EndedChainResolves(lib: Library, known: set<Key>, key: Key, stack: set<Key>, n: nat,
                                              result: Resolution)
    requires Closed(lib, known) && key in known && LeadsTo(lib, stack, key)
    requires EndsWith(lib, key, n, result)
    ensures Plain(lib, known, key, stack) == result
    decreases n
  {
    if key in stack {
      var period: nat :| period > 0 && Iter(lib, key, period) == Some(key);
      ReturnNeverEnds(lib, key, period, n + 1);
      assert false;
    }
    if n > 0 {
      IterShorter(lib, key, 1, n);
      assert Iter(lib, key, 0) == Some(key);
      LeadsFurther(lib, stack, key);
      IterFromNext(lib, key, n - 1);
      EndedChainResolves(lib, known, NextOf(lib, key).key, stack + {key}, n - 1, result);
    }
  }

  lemma {:induction false} EndlessChainIsRefused(lib: Library, known: set<Key>, key: Key, stack: set<Key>)
    requires Closed(lib, known) && key in known
    requires NeverEnds(lib, key)
    ensures Plain(lib, known, key, stack) == LimitExceeded
    decreases known - stack
  {
    if key !in stack {
      assert Iter(lib, key, 0) == Some(key);
      assert Iter(lib, key, 1).Some?;
      var next := NextOf(lib, key).key;
      forall n: nat
        ensures Iter(lib, next, n).Some?
      {
        IterFromNext(lib, key, n);
        assert Iter(lib, key, n + 1).Some?;
      }
      EndlessChainIsRefused(lib, known, next, stack + {key});
    }
  }

  lemma {:induction false} EndsOrNot(lib: Library, key: Key) returns (n: nat, result: Resolution)
    ensures NeverEnds(lib, key) || EndsWith(lib, key, n, result)
  {
    n, result := 0, NotFound;
    if !NeverEnds(lib, key) {
      var none: nat :| Iter(lib, key, none).None?;
      n := LastStep(lib, key, none);
      result := NextOf(lib, Iter(lib, key, n).value).result;
    }
  }

  lemma {:induction false} LastStep(lib: Library, key: Key, none: nat) returns (n: nat)
    requires Iter(lib, key, none).None?
    ensures Iter(lib, key, n).Some? && NextOf(lib, Iter(lib, key, n).value).Stop?
  {
    if Iter(lib, key, none - 1).None? {
      n := LastStep(lib, key, none - 1);
    } else {
      n := none - 1;
    }
  }

  /** The stack does not matter, as long as it leads to the pair being resolved, and
      neither does the set the termination argument ranges over. */
  lemma {:induction false} PlainIsMeaning(lib: Library, known: set<Key>, key: Key, stack: set<Key>)
    requires Closed(lib, known) && key in known && LeadsTo(lib, stack, key)
    ensures Plain(lib, known, key, stack) == Meaning(lib, key)
  {
    UniverseIsClosed(lib, key);
    var n, result := EndsOrNot(lib, key);
    if NeverEnds(lib, key) {
      EndlessChainIsRefused(lib, known, key, stack);
      EndlessChainIsRefused(lib, Universe(lib, key), key, {});
    } else {
      EndedChainResolves(lib, known, key, stack, n, result);
      EndedChainResolves(lib, Universe(lib, key), key, {}, n, result);
    }
  }

  /** What resolving answers, in terms of the chain alone. It answers what the chain
      stops with; and it answers the non-retryable limit exactly when the chain comes
      back to a pair it has been through. */
  lemma {:induction false} MeaningOfChain(lib: Library, key: Key)
    ensures forall n: nat, result :: EndsWith(lib, key, n, result) ==> Meaning(lib, key) == result
    ensures Meaning(lib, key) == LimitExceeded <==>
      exists i: nat, j: nat :: i < j && Iter(lib, key, i).Some? && Iter(lib, key, i) == Iter(lib, key, j)
  {
    var universe := Universe(lib, key);
    UniverseIsClosed(lib, key);
    forall n: nat, result | EndsWith(lib, key, n, result)
      ensures Meaning(lib, key) == result
    {
      EndedChainResolves(lib, universe, key, {}, n, result);
    }
    var n, result := EndsOrNot(lib, key);
    if NeverEnds(lib, key) {
      EndlessChainIsRefused(lib, universe, key, {});
      assert Iter(lib, key, 0) == Some(key);
      var i, j := FindRepeat(lib, universe, key, 0, {});
    } else {
      EndedChainResolves(lib, universe, key, {}, n, result);
      if i: nat, j: nat :| i < j && Iter(lib, key, i).Some? && Iter(lib, key, i) == Iter(lib, key, j) {
        RepeatNeverEnds(lib, key, i, j);
        assert false;
      }
    }
  }

  /** Everything in `met` is among the first `n` pairs of the chain. */
  ghost predicate MetBefore(lib: Library, key: Key, n: nat, met: set<Key>) {
    forall k :: k in met ==> exists m: nat :: m < n && Iter(lib, key, m) == Some(k)
  }

  lemma {:induction false} FindRepeat(lib: Library, known: set<Key>, key: Key, n: nat,
                                      met: set<Key>) returns (i: nat, j: nat)
    requires Closed(lib, known) && NeverEnds(lib, key)
    requires Iter(lib, key, n).Some? && Iter(lib, key, n).value in known
    requires MetBefore(lib, key, n, met)
    ensures i < j && Iter(lib, key, i).Some? && Iter(lib, key, i) == Iter(lib, key, j)
    decreases known - met
  {
    var here := Iter(lib, key, n).value;
    if here in met {
      i :| i < n && Iter(lib, key, i) == Some(here);
      j := n;
    } else {
      var next := n + 1;
      assert Iter(lib, key, next).Some?;
      assert MetBefore(lib, key, next, met + {here});
      i, j := FindRepeat(lib, known, key, next, met + {here});
    }
  }

  // ---------- what resolving means, in the library's own terms ----------

  /** The mode a variable is read in: the one asked for if the variable has it, else the
      default of its collection if the variable has that. */
  predicate IsReadIn(lib: Library, key: Key, mode: string) {
    && key.0 in lib.variables
    && var variable := lib.variables[key.0];
       && mode in variable.valuesByMode
       && if key.1 in variable.valuesByMode then mode == key.1
          else variable.collectionId in lib.defaultModes && mode == lib.defaultModes[variable.collectionId]
  }

  /** In that mode the variable holds an alias of `next`'s variable, which is then asked for
      in the same mode. */
  predicate IsAliasOf(lib: Library, key: Key, next: Key) {
    IsReadIn(lib, key, next.1) && lib.variables[key.0].valuesByMode[next.1] == Alias(next.0)
  }

  /** The answer to `key`: the value the variable holds in the mode it is read in; what its
      target answers if that is an alias; and not found for anything else. */
  ghost predicate Answers(lib: Library, key: Key, result: Resolution) {
    && (forall mode, value :: IsReadIn(lib, key, mode) && lib.variables[key.0].valuesByMode[mode] == Value(value) ==>
          result == Resolved(value))
    && (forall next :: IsAliasOf(lib, key, next) ==> result == Meaning(lib, next))
    && (forall mode :: IsReadIn(lib, key, mode) && lib.variables[key.0].valuesByMode[mode] == Unusable ==>
          result == NotFound)
    && ((forall mode :: !IsReadIn(lib, key, mode)) ==> result == NotFound)
  }

  lemma {:induction false} LinkMeaning(lib: Library, key: Key, next: Key)
    ensures IsAliasOf(lib, key, next) <==> NextOf(lib, key) == Follow(next)
  {
  }

  lemma {:induction false} AliasAnswersAsItsTarget(lib: Library, key: Key, next: Key)
    requires IsAliasOf(lib, key, next)
    ensures Meaning(lib, key) == Meaning(lib, next)
  {
    var universe := Universe(lib, key);
    LinkMeaning(lib, key, next);
    UniverseIsClosed(lib, key);
    LeadsFurther(lib, {}, key);
    assert {} + {key} == {key};
    PlainIsMeaning(lib, universe, next, {key});
  }

  lemma {:induction false} StopMeaning(lib: Library, key: Key)
    ensures NextOf(lib, key).Stop? ==> Meaning(lib, key) == NextOf(lib, key).result
  {
  }

  lemma {:induction false} MeaningAnswers(lib: Library, key: Key)
    ensures Answers(lib, key, Meaning(lib, key))
  {
    hide Meaning;
    StopMeaning(lib, key);
    forall next | IsAliasOf(lib, key, next)
      ensures Meaning(lib, key) == Meaning(lib, next)
    {
      AliasAnswersAsItsTarget(lib, key, next);
    }
    if (forall mode :: !IsReadIn(lib, key, mode)) && key.0 in lib.variables {
      var variable := lib.variables[key.0];
      assert !IsReadIn(lib, key, key.1);
      if variable.collectionId in lib.defaultModes {
        assert !IsReadIn(lib, key, lib.defaultModes[variable.collectionId]);
      }
    }
  }

  /** Every pair in the list is an alias of the one after it. */
  predicate IsAliasChain(lib: Library, keys: seq<Key>) {
    forall i :: 0 <= i < |keys| - 1 ==> IsAliasOf(lib, keys[i], keys[i + 1])
  }

  /** A chain of aliases from `key` comes back to a pair it has been through. */
  ghost predicate ComesBack(lib: Library, key: Key) {
    exists keys, i, j :: 0 <= i < j < |keys| && keys[0] == key && IsAliasChain(lib, keys) && keys[i] == keys[j]
  }

  lemma {:induction false} ChainIsIterated(lib: Library, keys: seq<Key>, n: nat)
    requires n < |keys| && IsAliasChain(lib, keys)
    ensures Iter(lib, keys[0], n) == Some(keys[n])
  {
    if n > 0 {
      ChainIsIterated(lib, keys, n - 1);
      LinkMeaning(lib, keys[n - 1], keys[n]);
    }
  }

  lemma {:induction false} IteratedChain(lib: Library, key: Key, n: nat) returns (keys: seq<Key>)
    requires Iter(lib, key, n).Some?
    ensures |keys| == n + 1 && keys[0] == key && IsAliasChain(lib, keys)
    ensures forall k: nat :: k <= n ==> Iter(lib, key, k) == Some(keys[k])
  {
    if n == 0 {
      keys := [key];
    } else {
      keys := IteratedChain(lib, key, n - 1);
      var last := Iter(lib, key, n).value;
      LinkMeaning(lib, keys[n - 1], last);
      keys := keys + [last];
    }
  }

  /** The non-retryable limit is the answer exactly when following the aliases comes back. */
  lemma {:induction false} LimitMeansComingBack(lib: Library, key: Key)
    ensures Meaning(lib, key) == LimitExceeded <==> ComesBack(lib, key)
  {
    hide Meaning, IsAliasChain;
    MeaningOfChain(lib, key);
    if Meaning(lib, key) == LimitExceeded {
      var i: nat, j: nat :| i < j && Iter(lib, key, i).Some? && Iter(lib, key, i) == Iter(lib, key, j);
      var keys := IteratedChain(lib, key, j);
      assert keys[i] == keys[j];
    }
    if ComesBack(lib, key) {
      var keys, i, j :| 0 <= i < j < |keys| && keys[0] == key && IsAliasChain(lib, keys) && keys[i] == keys[j];
      ChainIsIterated(lib, keys, i);
      ChainIsIterated(lib, keys, j);
    }
  }

  // ---------- the session ----------

  class VariableSession {
    const lib: Library
    var variables: map<string, Option<Variable>>
    var collections: map<string, Option<string>>
    var memo: map<Key, Resolution>

    constructor (lib: Library)
      ensures Valid() && this.lib == lib && memo == map[]
    {
      this.lib := lib;
      variables, collections, memo := map[], map[], map[];
    }

    /** Caches hold what the host answers; the memo holds only final answers. */
    ghost predicate Valid()
      reads this
    {
      && (forall id :: id in variables ==> variables[id] == HostVariable(id))
      && (forall id :: id in collections ==> collections[id] == HostDefaultMode(id))
      && (forall key :: key in memo ==> memo[key] == Meaning(lib, key))
    }

    function HostVariable(id: string): Option<Variable> {
      if id in lib.variables then Some(lib.variables[id]) else None
    }

    function HostDefaultMode(id: string): Option<string> {
      if id in lib.defaultModes then Some(lib.defaultModes[id]) else None
    }

    method LookupVariable(id: string) returns (variable: Option<Variable>)
      requires Valid()
      modifies this`variables
      ensures Valid() && variable == HostVariable(id)
    {
      if id in variables {
        return variables[id];
      }
      variable := HostVariable(id);
      variables := variables[id := variable];
    }

    method LookupDefaultMode(id: string) returns (mode: Option<string>)
      requires Valid()
      modifies this`collections
      ensures Valid() && mode == HostDefaultMode(id)
    {
      if id in collections {
        return collections[id];
      }
      mode := HostDefaultMode(id);
      collections := collections[id := mode];
    }

    /** Every answer and every memo entry is the memo-free result from an empty stack,
        and the stack comes back as it went in. */
    method Resolve(key: Key, stack: set<Key>, ghost known: set<Key>) returns (result: Resolution, stackAfter: set<Key>)
      requires Valid()
      requires Closed(lib, known) && key in known && LeadsTo(lib, stack, key)
      modifies this
      ensures Valid()
      ensures result == Meaning(lib, key) && stackAfter == stack
      ensures old(memo).Keys <= memo.Keys
      decreases known - stack
    {
      PlainIsMeaning(lib, known, key, stack);
      stackAfter := stack;
      if key in memo {
        return memo[key], stack;
      }
      if key in stack {
        return LimitExceeded, stack;
      }
      stackAfter := stackAfter + {key};
      var variable := LookupVariable(key.0);
      if variable.None? {
        stackAfter := stackAfter - {key};
        memo := memo[key := NotFound];
        return NotFound, stackAfter;
      }
      var values := variable.value.valuesByMode;
      var mode := key.1;
      if mode !in values {
        var default := LookupDefaultMode(variable.value.collectionId);
        mode := if default.Some? then default.value else key.1;
      }
      if mode !in values {
        result := NotFound;
      } else if values[mode].Alias? {
        LeadsFurther(lib, stack, key);
        result, stackAfter := Resolve((values[mode].id, mode), stackAfter, known);
        PlainIsMeaning(lib, known, (values[mode].id, mode), stack + {key});
      } else if values[mode].Value? {
        result := Resolved(values[mode].value);
      } else {
        result := NotFound;
      }
      stackAfter := stackAfter - {key};
      memo := memo[key := result];
    }

    /** How a definition asks: each time with a stack of its own. */
    method ResolveAlias(variableId: string, modeId: string) returns (result: Resolution)
      requires Valid()
      modifies this
      ensures Valid()
      ensures result == Meaning(lib, (variableId, modeId))
      ensures Answers(lib, (variableId, modeId), result)
      ensures result == LimitExceeded <==> ComesBack(lib, (variableId, modeId))
    {
      MeaningAnswers(lib, (variableId, modeId));
      LimitMeansComingBack(lib, (variableId, modeId));
      UniverseIsClosed(lib, (variableId, modeId));
      var stack;
      result, stack := Resolve((variableId, modeId), {}, Universe(lib, (variableId, modeId)));
    }
  }
}
