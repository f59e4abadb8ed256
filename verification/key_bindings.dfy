/**
 * Key bindings (KeyBindings.java): a table from action names to key lists
 * and the key-to-action lookup generated from it.
 */
module KeyBindings {
  import opened Wrappers

  /** `java.awt.event.KeyEvent` key codes of the default bindings. */
  const VK_A: int := 65
  const VK_D: int := 68
  const VK_J: int := 74
  const VK_K: int := 75
  const VK_S: int := 83
  const VK_W: int := 87

  const MOVE_LEFT: string := "MOVE_LEFT"
  const MOVE_RIGHT: string := "MOVE_RIGHT"
  const MOVE_UP: string := "MOVE_UP"
  const MOVE_DOWN: string := "MOVE_DOWN"
  const JUMP: string := "JUMP"
  const DASH: string := "DASH"

  type ActionTable = map<string, seq<int>>

  /** The table the static initialiser fills: one key per action, and no climb action. */
  const DefaultActionToKeys: ActionTable := map[
    MOVE_LEFT := [VK_A], MOVE_RIGHT := [VK_D], MOVE_UP := [VK_W], MOVE_DOWN := [VK_S],
    JUMP := [VK_K], DASH := [VK_J]]

  /**
   * `rev` is a reverse lookup of `table`: every bound key is in it, and it
   * only sends a key to an action whose list holds that key.
   */
  ghost predicate IsReverseLookup(table: ActionTable, rev: map<int, string>)
  {
    && (forall a, i :: a in table && 0 <= i < |table[a]| ==> table[a][i] in rev)
    && (forall k :: k in rev ==> rev[k] in table && k in table[rev[k]])
  }

  /**
   * `generateReverseLookup`: every key of every action's list is mapped to
   * that action, the actions taken in the hash map's (unspecified) order, so
   * that a key bound to two actions ends up with whichever came last.
   */
  method GenerateReverseLookup(table: ActionTable) returns (rev: map<int, string>)
    ensures IsReverseLookup(table, rev)
  {
    rev := map[];
    var remaining := table.Keys;
    while remaining != {}
      invariant remaining <= table.Keys
      invariant forall a, i :: a in table && a !in remaining && 0 <= i < |table[a]| ==> table[a][i] in rev
      invariant forall k :: k in rev ==> rev[k] in table && k in table[rev[k]]
      decreases remaining
    {
      var action :| action in remaining;
      var keys := table[action];
      for j := 0 to |keys|
        invariant forall a, i :: a in table && a !in remaining && 0 <= i < |table[a]| ==> table[a][i] in rev
        invariant forall i :: 0 <= i < j ==> keys[i] in rev
        invariant forall k :: k in rev ==> rev[k] in table && k in table[rev[k]]
      {
        rev := rev[keys[j] := action];
      }
      remaining := remaining - {action};
    }
  }

  /** `getKeysForAction`: the action's keys, or none for an unbound action. */
  function GetKeysForAction(table: ActionTable, action: string): (keys: seq<int>)
    ensures action !in table ==> keys == []
    ensures action in table ==> keys == table[action]
  {
    if action in table then table[action] else []
  }

  /** `getActionForKey`: `None` stands for Java's `null` on an unbound key. */
  function GetActionForKey(rev: map<int, string>, key: int): (action: Option<string>)
    ensures action.None? <==> key !in rev
    ensures action.Some? ==> rev[key] == action.value
  {
    if key in rev then Some(rev[key]) else None
  }

  predicate IsJumpKey(rev: map<int, string>, key: int) { GetActionForKey(rev, key) == Some(JUMP) }
  predicate IsDashKey(rev: map<int, string>, key: int) { GetActionForKey(rev, key) == Some(DASH) }
  predicate IsLeftMoveKey(rev: map<int, string>, key: int) { GetActionForKey(rev, key) == Some(MOVE_LEFT) }
  predicate IsRightMoveKey(rev: map<int, string>, key: int) { GetActionForKey(rev, key) == Some(MOVE_RIGHT) }
  predicate IsUpMoveKey(rev: map<int, string>, key: int) { GetActionForKey(rev, key) == Some(MOVE_UP) }
  predicate IsDownMoveKey(rev: map<int, string>, key: int) { GetActionForKey(rev, key) == Some(MOVE_DOWN) }

  /** A key's action, when it has one, lists that key; a key some action lists has an action. */
  lemma LookupAgreesWithTable(table: ActionTable, rev: map<int, string>, key: int)
    requires IsReverseLookup(table, rev)
    ensures GetActionForKey(rev, key).Some? ==>
      key in GetKeysForAction(table, GetActionForKey(rev, key).value)
    ensures (exists a :: a in table && key in table[a]) ==> GetActionForKey(rev, key).Some?
  {
    if exists a :: a in table && key in table[a] {
      var a :| a in table && key in table[a];
      var i :| 0 <= i < |table[a]| && table[a][i] == key;
    }
  }

  /** At most one of the key predicates holds for any key. */
  lemma KeyPredicatesExclusive(rev: map<int, string>, key: int)
    ensures
      var held := [IsJumpKey(rev, key), IsDashKey(rev, key), IsLeftMoveKey(rev, key),
                   IsRightMoveKey(rev, key), IsUpMoveKey(rev, key), IsDownMoveKey(rev, key)];
      forall i, j :: 0 <= i < j < |held| && held[i] ==> !held[j]
  {
  }

  /** The expected lookup for the default table. */
  const DefaultKeyToAction: map<int, string> := map[
    VK_A := MOVE_LEFT, VK_D := MOVE_RIGHT, VK_W := MOVE_UP, VK_S := MOVE_DOWN,
    VK_K := JUMP, VK_J := DASH]

  /**
   * The default table binds each of its six keys to one action, so whatever
   * order the hash map yields, its reverse lookup is A, D, W, S, K, J to left,
   * right, up, down, jump and dash; no key is a climb key.
   */
  lemma DefaultLookup(rev: map<int, string>)
    requires IsReverseLookup(DefaultActionToKeys, rev)
    ensures rev == DefaultKeyToAction
    ensures forall k :: GetActionForKey(rev, k) != Some("CLIMB")
  {
    assert DefaultActionToKeys[MOVE_LEFT][0] in rev;
    assert DefaultActionToKeys[MOVE_RIGHT][0] in rev;
    assert DefaultActionToKeys[MOVE_UP][0] in rev;
    assert DefaultActionToKeys[MOVE_DOWN][0] in rev;
    assert DefaultActionToKeys[JUMP][0] in rev;
    assert DefaultActionToKeys[DASH][0] in rev;
    forall k | k in rev
      ensures k in DefaultKeyToAction && rev[k] == DefaultKeyToAction[k]
    {
      assert rev[k] in DefaultActionToKeys && k in DefaultActionToKeys[rev[k]];
    }
    assert rev.Keys == DefaultKeyToAction.Keys;
  }
}
