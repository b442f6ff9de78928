/**
 * The light-switching agent of the traffic simulation (class `TrafficAI`
 * in main.py): the discretised traffic state, the nested Q-table
 * dictionary and its update, and the epsilon-greedy choice.  Q-values are
 * exact reals; the table's outer keys are `str(state)` and its inner keys
 * `str(action)`, so the exploiting branch returns a string, never an int.
 */
module QLearning {
  import opened Common

  // ---------------------------------------------------------------- states

  /** Low (0), medium (1) or high (2) traffic on one axis. */
  type Level = n: int | 0 <= n <= 2

  /** The tuple `(ns, ew)` returned by `get_state_representation`. */
  datatype TrafficState = TrafficState(ns: Level, ew: Level)

  /** `discretize`: fewer than 3 vehicles is low, fewer than 6 medium, else high. */
  function Discretize(value: int): (level: Level)
    ensures level == 0 <==> value < 3
    ensures level == 1 <==> 3 <= value < 6
    ensures level == 2 <==> 6 <= value
  {
    if value < 3 then 0 else if value < 6 then 1 else 2
  }

  /** `traffic_counts.get(direction, 0)`. */
  function CountOf(counts: map<string, int>, direction: string): int
  {
    if direction in counts then counts[direction] else 0
  }

  function AxisTotals(counts: map<string, int>): (int, int)
  {
    (CountOf(counts, "north") + CountOf(counts, "south"), CountOf(counts, "east") + CountOf(counts, "west"))
  }

  /**
   * `get_state_representation`: each axis is low, medium or high by the sum
   * of its two directions' counts.
   */
  function GetStateRepresentation(counts: map<string, int>): (s: TrafficState)
    ensures var ns := CountOf(counts, "north") + CountOf(counts, "south");
      && (s.ns == 0 <==> ns < 3) && (s.ns == 1 <==> 3 <= ns < 6) && (s.ns == 2 <==> 6 <= ns)
    ensures var ew := CountOf(counts, "east") + CountOf(counts, "west");
      && (s.ew == 0 <==> ew < 3) && (s.ew == 1 <==> 3 <= ew < 6) && (s.ew == 2 <==> 6 <= ew)
  {
    var (ns, ew) := AxisTotals(counts);
    TrafficState(Discretize(ns), Discretize(ew))
  }

  /**
   * The state only sees the two axis totals: counts that agree on the
   * totals give the same state, a missing direction counts as zero, and
   * more traffic on an axis never gives a lower level.
   */
  lemma StateOfAxisTotals(c1: map<string, int>, c2: map<string, int>)
    ensures AxisTotals(c1) == AxisTotals(c2) ==> GetStateRepresentation(c1) == GetStateRepresentation(c2)
    ensures AxisTotals(c1).0 <= AxisTotals(c2).0 ==> GetStateRepresentation(c1).ns <= GetStateRepresentation(c2).ns
    ensures AxisTotals(c1).1 <= AxisTotals(c2).1 ==> GetStateRepresentation(c1).ew <= GetStateRepresentation(c2).ew
  {
  }

  lemma MissingDirectionCountsZero(counts: map<string, int>, direction: string)
    requires direction !in counts
    ensures GetStateRepresentation(counts[direction := 0]) == GetStateRepresentation(counts)
  {
  }

  function Digit(n: Level): char
  {
    if n == 0 then '0' else if n == 1 then '1' else '2'
  }

  /** `str(state)`: Python's text of the tuple, such as `"(0, 2)"`. */
  function StateKey(s: TrafficState): (key: string)
    ensures |key| == 6
    ensures key[0] == '(' && key[2..4] == ", " && key[5] == ')'
    ensures key[1] as int - '0' as int == s.ns && key[4] as int - '0' as int == s.ew
  {
    "(" + [Digit(s.ns)] + ", " + [Digit(s.ew)] + ")"
  }

  /** Different states are filed under different keys. */
  lemma StateKeyInjective(s: TrafficState, t: TrafficState)
    ensures StateKey(s) == StateKey(t) <==> s == t
  {
    if StateKey(s) == StateKey(t) {
      assert StateKey(s)[1] == Digit(s.ns) && StateKey(t)[1] == Digit(t.ns);
      assert StateKey(s)[4] == Digit(s.ew) && StateKey(t)[4] == Digit(t.ew);
    }
  }

  // ---------------------------------------------------------------- actions

  type Bit = n: int | 0 <= n <= 1

  /**
   * What `choose_action` returns: the int 0 or 1 drawn by `random.choice`,
   * or a key of the inner Q-table dictionary, which is a string.
   */
  datatype Action = IntAction(value: Bit) | KeyAction(key: string)

  /** `str(action)`: the decimal digit of an int, a string unchanged. */
  function ActionKey(a: Action): (key: string)
    ensures a.IntAction? ==> |key| == 1 && key[0] as int - '0' as int == a.value
    ensures a.KeyAction? ==> key == a.key
  {
    match a
    case IntAction(v) => if v == 0 then "0" else "1"
    case KeyAction(k) => k
  }

  /**
   * `str` of a key is the key, and the two int actions are filed apart, so
   * a key read back from the table is filed where it came from.
   */
  lemma ActionKeyOfKey(a: Action)
    ensures ActionKey(KeyAction(ActionKey(a))) == ActionKey(a)
    ensures ActionKey(IntAction(0)) != ActionKey(IntAction(1))
  {
  }

  /** `action == 1` in the main loop: only the int 1 is equal to 1 in Python. */
  predicate IsSwitch(a: Action)
  {
    a == IntAction(1)
  }

  /** The table files the int 1 and the string "1" under one key, yet only the int switches. */
  lemma KeyConflatesSwitch()
    ensures ActionKey(IntAction(1)) == ActionKey(KeyAction("1"))
    ensures IsSwitch(IntAction(1)) && !IsSwitch(KeyAction("1"))
  {
  }

  // ---------------------------------------------------------------- inner dictionaries

  /** An inner dictionary `{str(action): q}`, in insertion order. */
  type QRow = seq<(string, real)>

  function Keys(row: QRow): (keys: seq<string>)
    ensures |keys| == |row|
    ensures forall i :: 0 <= i < |row| ==> keys[i] == row[i].0
  {
    if |row| == 0 then [] else [row[0].0] + Keys(row[1..])
  }

  ghost predicate UniqueKeys(row: QRow)
  {
    forall i, j :: 0 <= i < j < |row| ==> row[i].0 != row[j].0
  }

  /** `row.get(key)`. */
  function Get(row: QRow, key: string): (v: Option<real>)
    ensures v.Some? <==> key in Keys(row)
    ensures v.Some? ==> exists i :: 0 <= i < |row| && row[i] == (key, v.value)
  {
    if |row| == 0 then None
    else if row[0].0 == key then Some(row[0].1)
    else Get(row[1..], key)
  }

  /** `row.get(key, 0)`. */
  function GetOr(row: QRow, key: string, default: real): real
  {
    match Get(row, key)
    case Some(v) => v
    case None => default
  }

  /**
   * `row[key] = v`: an existing key keeps its place and takes the new value;
   * a new key goes at the end (`PutKeys`, `PutGet`).
   */
  function Put(row: QRow, key: string, v: real): (r: QRow)
    ensures |row| <= |r| <= |row| + 1
    decreases |row|
  {
    if |row| == 0 then [(key, v)]
    else if row[0].0 == key then [(key, v)] + row[1..]
    else [row[0]] + Put(row[1..], key, v)
  }

  /** The keys keep their order; a new key is appended. */
  lemma {:induction false} PutKeys(row: QRow, key: string, v: real)
    ensures Keys(Put(row, key, v)) == if key in Keys(row) then Keys(row) else Keys(row) + [key]
    decreases |row|
  {
    if |row| > 0 {
      assert Keys(row) == [row[0].0] + Keys(row[1..]);
      var r := Put(row, key, v);
      if row[0].0 == key {
        assert r[1..] == row[1..];
        assert Keys(r) == [key] + Keys(row[1..]);
      } else {
        PutKeys(row[1..], key, v);
        assert r[1..] == Put(row[1..], key, v);
        assert Keys(r) == [row[0].0] + Keys(r[1..]);
      }
    }
  }

  /** The key reads back the new value; every other key reads what it read before. */
  lemma {:induction false} PutGet(row: QRow, key: string, v: real)
    ensures forall k :: Get(Put(row, key, v), k) == if k == key then Some(v) else Get(row, k)
    decreases |row|
  {
    if |row| > 0 {
      var r := Put(row, key, v);
      if row[0].0 == key {
        assert r[1..] == row[1..];
      } else {
        PutGet(row[1..], key, v);
        assert r[1..] == Put(row[1..], key, v);
      }
    }
  }

  lemma UniqueKeysCons(row: QRow)
    requires |row| > 0
    ensures UniqueKeys(row) <==> row[0].0 !in Keys(row[1..]) && UniqueKeys(row[1..])
  {
    if UniqueKeys(row) {
      assert forall i, j :: 0 <= i < j < |row[1..]| ==> row[1..][i] == row[i + 1] && row[1..][j] == row[j + 1];
    }
    if row[0].0 !in Keys(row[1..]) && UniqueKeys(row[1..]) {
      forall i, j | 0 <= i < j < |row|
        ensures row[i].0 != row[j].0
      {
        assert row[j].0 == row[1..][j - 1].0 == Keys(row[1..])[j - 1];
        if i > 0 {
          assert row[i] == row[1..][i - 1];
        }
      }
    }
  }

  /** Putting into a dictionary without duplicate keys leaves none. */
  lemma {:induction false} PutKeepsKeysUnique(row: QRow, key: string, v: real)
    requires UniqueKeys(row)
    ensures UniqueKeys(Put(row, key, v))
    decreases |row|
  {
    var r := Put(row, key, v);
    if |row| == 0 {
    } else {
      UniqueKeysCons(row);
      UniqueKeysCons(r);
      if row[0].0 == key {
        assert r[1..] == row[1..];
      } else {
        PutKeepsKeysUnique(row[1..], key, v);
        PutKeys(row[1..], key, v);
        assert r[1..] == Put(row[1..], key, v);
      }
    }
  }

  /**
   * The index `max(row, key=row.get)` returns: the first entry holding the
   * largest value (later entries replace the best only when strictly larger).
   */
  function BestIndex(row: QRow): (b: nat)
    requires |row| > 0
    ensures b < |row|
    ensures forall i :: 0 <= i < |row| ==> row[i].1 <= row[b].1
    ensures forall i :: 0 <= i < b ==> row[i].1 < row[b].1
    decreases |row|
  {
    if |row| == 1 then 0
    else
      var n := |row| - 1;
      var b := BestIndex(row[..n]);
      if row[n].1 > row[b].1 then n else b
  }

  /** `max(row.values(), default=0)`. */
  function MaxValue(row: QRow): (m: real)
    ensures |row| == 0 ==> m == 0.0
    ensures |row| > 0 ==> (exists i :: 0 <= i < |row| && row[i].1 == m)
    ensures forall i :: 0 <= i < |row| ==> row[i].1 <= m
  {
    if |row| == 0 then 0.0 else row[BestIndex(row)].1
  }

  // ---------------------------------------------------------------- the table

  /** `q_table`: `str(state)` to its inner dictionary. */
  type QTable = map<string, QRow>

  /** `q_table.get(key, {})`. */
  function RowOf(q: QTable, key: string): QRow
  {
    if key in q then q[key] else []
  }

  /** The Bellman update of one value. */
  function NewValue(oldValue: real, reward: int, nextMax: real, lr: real, gamma: real): real
  {
    oldValue + lr * (reward as real + gamma * nextMax - oldValue)
  }

  /**
   * The table after `update_q_table(state, action, reward, next_state)`:
   * the entry of the action under the state takes the new value (an inner
   * dictionary is created if the state had none); every other entry of the
   * table stays as it was.
   */
  function UpdatedTable(q: QTable, state: TrafficState, action: Action, reward: int,
                        nextState: TrafficState, lr: real, gamma: real): (r: QTable)
    ensures r.Keys == q.Keys + {StateKey(state)}
    ensures forall k :: k in q && k != StateKey(state) ==> r[k] == q[k]
    ensures Get(r[StateKey(state)], ActionKey(action)) ==
      Some(NewValue(GetOr(RowOf(q, StateKey(state)), ActionKey(action), 0.0), reward,
                    MaxValue(RowOf(q, StateKey(nextState))), lr, gamma))
    ensures forall k :: k != ActionKey(action) ==> Get(r[StateKey(state)], k) == Get(RowOf(q, StateKey(state)), k)
    ensures r[StateKey(state)] != []
  {
    var row := RowOf(q, StateKey(state));
    var oldValue := GetOr(row, ActionKey(action), 0.0);
    var nextMax := MaxValue(RowOf(q, StateKey(nextState)));
    var value := NewValue(oldValue, reward, nextMax, lr, gamma);
    PutGet(row, ActionKey(action), value);
    q[StateKey(state) := Put(row, ActionKey(action), value)]
  }

  /** Every inner dictionary of the table holds each action key once, as a Python dict does. */
  ghost predicate TableKeysUnique(q: QTable)
  {
    forall k :: k in q ==> UniqueKeys(q[k])
  }

  /** An update keeps every inner dictionary free of duplicate keys. */
  lemma UpdateKeepsKeysUnique(q: QTable, state: TrafficState, action: Action, reward: int,
                              nextState: TrafficState, lr: real, gamma: real)
    requires TableKeysUnique(q)
    ensures TableKeysUnique(UpdatedTable(q, state, action, reward, nextState, lr, gamma))
  {
    var row := RowOf(q, StateKey(state));
    var value := NewValue(GetOr(row, ActionKey(action), 0.0), reward,
                          MaxValue(RowOf(q, StateKey(nextState))), lr, gamma);
    PutKeepsKeysUnique(row, ActionKey(action), value);
  }

  /**
   * The epsilon-greedy choice for a state's inner dictionary.  Exploring
   * returns the int drawn by `random.choice([0, 1])`; exploiting returns the
   * first key with the largest value, or the drawn int when the dictionary
   * is empty (the default argument is drawn in either case).
   */
  function Choose(row: QRow, explore: bool, pick: Bit): (a: Action)
    ensures explore || row == [] ==> a == IntAction(pick)
    ensures !explore && row != [] ==>
      && a.KeyAction?
      && exists b :: 0 <= b < |row| && row[b].0 == a.key
           && (forall i :: 0 <= i < |row| ==> row[i].1 <= row[b].1)
           && (forall i :: 0 <= i < b ==> row[i].1 < row[b].1)
    ensures IsSwitch(a) ==> explore || row == []
  {
    if explore then IntAction(pick)
    else if row == [] then IntAction(pick)
    else KeyAction(row[BestIndex(row)].0)
  }

  /** The Q-learning agent; the table file is not modelled, so it starts empty. */
  class TrafficAI {
    var qTable: QTable
    const lr: real
    const gamma: real
    const epsilon: real

    ghost predicate Valid()
      reads this
    {
      TableKeysUnique(qTable)
    }

    /** `TrafficAI()` with the default rates 0.1, 0.9 and 0.1. */
    constructor ()
      ensures Valid()
      ensures qTable == map[] && lr == 0.1 && gamma == 0.9 && epsilon == 0.1
    {
      qTable := map[];
      lr, gamma, epsilon := 0.1, 0.9, 0.1;
    }

    method UpdateQTable(state: TrafficState, action: Action, reward: int, nextState: TrafficState)
      requires Valid()
      modifies this`qTable
      ensures Valid()
      ensures qTable == UpdatedTable(old(qTable), state, action, reward, nextState, lr, gamma)
    {
      UpdateKeepsKeysUnique(qTable, state, action, reward, nextState, lr, gamma);
      var stateKey := StateKey(state);
      var nextStateKey := StateKey(nextState);
      var oldValue := GetOr(RowOf(qTable, stateKey), ActionKey(action), 0.0);
      var nextMax := MaxValue(RowOf(qTable, nextStateKey));
      var newValue := NewValue(oldValue, reward, nextMax, lr, gamma);
      if stateKey !in qTable {
        qTable := qTable[stateKey := []];
      }
      assert qTable[stateKey] == RowOf(old(qTable), stateKey);
      qTable := qTable[stateKey := Put(qTable[stateKey], ActionKey(action), newValue)];
    }

    /** `choose_action(state)`, with `random.random()` as `draw` and `random.choice([0, 1])` as `pick`. */
    function ChooseAction(state: TrafficState, draw: real, pick: Bit): (a: Action)
      reads this
      ensures IsSwitch(a) ==> draw < epsilon || StateKey(state) !in qTable || qTable[StateKey(state)] == []
    {
      Choose(RowOf(qTable, StateKey(state)), draw < epsilon, pick)
    }

    /**
     * Once a state has been learnt, only an exploring draw can switch the
     * lights in it: the exploiting branch returns a string key.
     */
    lemma LearntStateSwitchesOnlyWhenExploring(q: QTable, state: TrafficState, action: Action, reward: int,
                                               nextState: TrafficState, draw: real, pick: Bit)
      requires qTable == UpdatedTable(q, state, action, reward, nextState, lr, gamma)
      ensures IsSwitch(ChooseAction(state, draw, pick)) ==> draw < epsilon
    {
    }
  }
}
