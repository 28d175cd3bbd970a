/**
 * BloomFramework's InputManager: the sets of registered keyboard, mouse and
 * joystick handlers, and the record of which handler took each key press so
 * that the release goes back to it.
 *
 * An input consumer is an object id together with the handler interfaces it
 * implements; a handler's answer to a key press is given as a map from the
 * handler to the handler it returns (absent: it returned null). The handlers'
 * own reactions are not modelled; the release notifications are returned.
 */
module Input {
  import opened Wrappers

  /** An object handed to RegisterInputConsumer and the handler interfaces it implements. */
  datatype Consumer = Consumer(id: nat, isKeyboardHandler: bool, isMouseHandler: bool, isJoystickHandler: bool)

  /** The three handler sets. */
  datatype HandlerSets = HandlerSets(keyboard: set<Consumer>, mouse: set<Consumer>, joystick: set<Consumer>)

  /** KeyPressHandler: a key of a keyboard, as pressed towards a top-level handler. */
  datatype KeyPress = KeyPress(keyboard: nat, key: nat, handler: Consumer)

  /** The handler sets after registering `c`: it joins the set of the first handler interface it implements. */
  function AfterRegister(h: HandlerSets, c: Consumer): (r: HandlerSets)
  {
    if c.isKeyboardHandler then h.(keyboard := h.keyboard + {c})
    else if c.isMouseHandler then h.(mouse := h.mouse + {c})
    else if c.isJoystickHandler then h.(joystick := h.joystick + {c})
    else h
  }

  /** The handler sets after unregistering `c`: it leaves the set the same first-match rule picks. */
  function AfterUnregister(h: HandlerSets, c: Consumer): (r: HandlerSets)
  {
    if c.isKeyboardHandler then h.(keyboard := h.keyboard - {c})
    else if c.isMouseHandler then h.(mouse := h.mouse - {c})
    else if c.isJoystickHandler then h.(joystick := h.joystick - {c})
    else h
  }

  /**
   * A registered consumer is in exactly the set of its first handler
   * interface, keyboard before mouse before joystick; no other set changes,
   * and an object that is no handler changes nothing.
   */
  lemma RegisterFirstMatch(h: HandlerSets, c: Consumer)
    ensures var r := AfterRegister(h, c);
      && (c in r.keyboard <==> c in h.keyboard || c.isKeyboardHandler)
      && (c in r.mouse <==> c in h.mouse || (!c.isKeyboardHandler && c.isMouseHandler))
      && (c in r.joystick <==> c in h.joystick || (!c.isKeyboardHandler && !c.isMouseHandler && c.isJoystickHandler))
      && (forall d :: d != c ==> (d in r.keyboard <==> d in h.keyboard) && (d in r.mouse <==> d in h.mouse) && (d in r.joystick <==> d in h.joystick))
      && (!c.isKeyboardHandler && !c.isMouseHandler && !c.isJoystickHandler ==> r == h)
  {
  }

  /** Registering twice is registering once: the handler containers are sets. */
  lemma RegisterIdempotent(h: HandlerSets, c: Consumer)
    ensures AfterRegister(AfterRegister(h, c), c) == AfterRegister(h, c)
  {
  }

  /** Unregistering a consumer that was not registered undoes its registration. */
  lemma UnregisterUndoesRegister(h: HandlerSets, c: Consumer)
    requires c !in h.keyboard && c !in h.mouse && c !in h.joystick
    ensures AfterUnregister(AfterRegister(h, c), c) == h
  {
  }

  /** After unregistering, the consumer is in none of the sets its first handler interface selects. */
  lemma UnregisterRemoves(h: HandlerSets, c: Consumer)
    ensures var r := AfterUnregister(h, c);
      && (c.isKeyboardHandler ==> c !in r.keyboard && r.mouse == h.mouse && r.joystick == h.joystick)
      && (!c.isKeyboardHandler && c.isMouseHandler ==> c !in r.mouse && r.keyboard == h.keyboard && r.joystick == h.joystick)
      && (!c.isKeyboardHandler && !c.isMouseHandler && c.isJoystickHandler ==> c !in r.joystick && r.keyboard == h.keyboard && r.mouse == h.mouse)
  {
  }

  /** The presses recorded when `key` of `keyboard` goes down: one per handler that returned a handler. */
  function PressEntries(handlers: set<Consumer>, keyboard: nat, key: nat, results: map<Consumer, Consumer>): (entries: map<KeyPress, Consumer>)
    ensures forall p :: p in entries <==> p.keyboard == keyboard && p.key == key && p.handler in handlers && p.handler in results
    ensures forall p :: p in entries ==> entries[p] == results[p.handler]
  {
    map h | h in handlers && h in results :: KeyPress(keyboard, key, h) := results[h]
  }

  /** Asking one more handler records its press, if it returned a handler. */
  lemma PressEntriesAdd(handlers: set<Consumer>, h: Consumer, keyboard: nat, key: nat, results: map<Consumer, Consumer>)
    requires h !in handlers
    ensures PressEntries(handlers + {h}, keyboard, key, results) ==
      if h in results then PressEntries(handlers, keyboard, key, results)[KeyPress(keyboard, key, h) := results[h]]
      else PressEntries(handlers, keyboard, key, results)
  {
  }

  /** Recording one more press on top of a merge records it in the merged-in map. */
  lemma MergeUpdate(records: map<KeyPress, Consumer>, entries: map<KeyPress, Consumer>, p: KeyPress, h: Consumer)
    ensures (records + entries)[p := h] == records + entries[p := h]
  {
  }

  /** The records left once the presses of `key` of `keyboard` towards `handlers` are released. */
  function Released(records: map<KeyPress, Consumer>, keyboard: nat, key: nat, handlers: set<Consumer>): (left: map<KeyPress, Consumer>)
    ensures forall p :: p in left <==> p in records && !(p.keyboard == keyboard && p.key == key && p.handler in handlers)
    ensures forall p :: p in left ==> left[p] == records[p]
  {
    map p | p in records && !(p.keyboard == keyboard && p.key == key && p.handler in handlers) :: records[p]
  }

  /** Releasing towards one more handler removes its record, if any. */
  lemma ReleasedAdd(records: map<KeyPress, Consumer>, keyboard: nat, key: nat, handlers: set<Consumer>, h: Consumer)
    ensures Released(records, keyboard, key, handlers + {h}) == Released(records, keyboard, key, handlers) - {KeyPress(keyboard, key, h)}
  {
  }

  /**
   * A press and then the release of the same key, with the same keyboard
   * handlers registered, leave the records as they were before the press
   * when none of those handlers had a record of that key.
   */
  lemma PressThenRelease(records: map<KeyPress, Consumer>, handlers: set<Consumer>, keyboard: nat, key: nat, results: map<Consumer, Consumer>)
    requires forall h :: h in handlers ==> KeyPress(keyboard, key, h) !in records
    ensures Released(records + PressEntries(handlers, keyboard, key, results), keyboard, key, handlers) == records
  {
  }

  /** The top-level handlers among the pairs. */
  function Tops(pairs: seq<(Consumer, Consumer)>): (tops: set<Consumer>)
    ensures forall h :: h in tops <==> exists i :: 0 <= i < |pairs| && pairs[i].0 == h
  {
    if |pairs| == 0 then {} else Tops(pairs[..|pairs| - 1]) + {pairs[|pairs| - 1].0}
  }

  /**
   * The notifications made so far when releasing towards the handlers
   * `asked`: each pair is a top-level handler with a record and the
   * handler recorded for it, each asked handler with a record has its
   * pair, and no handler has two.
   */
  predicate NotifiedFor(records: map<KeyPress, Consumer>, keyboard: nat, key: nat, asked: set<Consumer>, notified: seq<(Consumer, Consumer)>)
  {
    && (forall i :: 0 <= i < |notified| ==>
          KeyPress(keyboard, key, notified[i].0) in records && notified[i].1 == records[KeyPress(keyboard, key, notified[i].0)])
    && Tops(notified) == (set h | h in asked && KeyPress(keyboard, key, h) in records)
    && (forall i, j :: 0 <= i < j < |notified| ==> notified[i].0 != notified[j].0)
  }

  /** Asking one more handler keeps the notifications right, whether or not it has a record. */
  lemma NotifiedStep(records: map<KeyPress, Consumer>, keyboard: nat, key: nat, asked: set<Consumer>, notified: seq<(Consumer, Consumer)>, h: Consumer)
    requires NotifiedFor(records, keyboard, key, asked, notified) && h !in asked
    ensures KeyPress(keyboard, key, h) in records ==>
      NotifiedFor(records, keyboard, key, asked + {h}, notified + [(h, records[KeyPress(keyboard, key, h)])])
    ensures KeyPress(keyboard, key, h) !in records ==> NotifiedFor(records, keyboard, key, asked + {h}, notified)
  {
    var press := KeyPress(keyboard, key, h);
    if press in records {
      var next := notified + [(h, records[press])];
      assert next[..|notified|] == notified;
      assert Tops(next) == Tops(notified) + {h};
    }
  }

  class InputManager {
    var keyboardHandlers: set<Consumer>
    var mouseHandlers: set<Consumer>
    var joystickHandlers: set<Consumer>
    /** keypressHandlers: the handler each recorded press is to be released to. */
    var keypressHandlers: map<KeyPress, Consumer>

    function Sets(): HandlerSets
      reads this
    {
      HandlerSets(keyboardHandlers, mouseHandlers, joystickHandlers)
    }

    constructor ()
      ensures Sets() == HandlerSets({}, {}, {}) && keypressHandlers == map[]
    {
      keyboardHandlers, mouseHandlers, joystickHandlers := {}, {}, {};
      keypressHandlers := map[];
    }

    /** RegisterInputConsumer. */
    method Register(c: Consumer)
      modifies this
      ensures Sets() == AfterRegister(old(Sets()), c)
      ensures keypressHandlers == old(keypressHandlers)
    {
      if c.isKeyboardHandler {
        keyboardHandlers := keyboardHandlers + {c};
      } else if c.isMouseHandler {
        mouseHandlers := mouseHandlers + {c};
      } else if c.isJoystickHandler {
        joystickHandlers := joystickHandlers + {c};
      }
    }

    /** UnregisterInputConsumer. */
    method Unregister(c: Consumer)
      modifies this
      ensures Sets() == AfterUnregister(old(Sets()), c)
      ensures keypressHandlers == old(keypressHandlers)
    {
      if c.isKeyboardHandler {
        keyboardHandlers := keyboardHandlers - {c};
      } else if c.isMouseHandler {
        mouseHandlers := mouseHandlers - {c};
      } else if c.isJoystickHandler {
        joystickHandlers := joystickHandlers - {c};
      }
    }

    /**
     * onKeyPressed: every keyboard handler is asked, in the set's order,
     * and each that returns a handler has the press recorded towards it.
     * Recording a press already recorded throws, as Dictionary.Add does,
     * leaving the presses recorded before it.
     */
    method OnKeyPressed(keyboard: nat, key: nat, results: map<Consumer, Consumer>) returns (r: Result<(), Exception>)
      modifies this`keypressHandlers
      ensures var entries := PressEntries(old(keyboardHandlers), keyboard, key, results);
        r.Ok? <==> forall p :: p in entries ==> p !in old(keypressHandlers)
      ensures r.Err? ==> r.error == DuplicateKey
      ensures r.Ok? ==> keypressHandlers == old(keypressHandlers) + PressEntries(old(keyboardHandlers), keyboard, key, results)
      ensures r.Err? ==> forall p :: p in keypressHandlers ==>
        p in old(keypressHandlers) || p in PressEntries(old(keyboardHandlers), keyboard, key, results)
    {
      ghost var asked: set<Consumer> := {};
      var remaining := keyboardHandlers;
      while remaining != {}
        invariant remaining <= keyboardHandlers && asked == keyboardHandlers - remaining
        invariant forall p :: p in PressEntries(asked, keyboard, key, results) ==> p !in old(keypressHandlers)
        invariant keypressHandlers == old(keypressHandlers) + PressEntries(asked, keyboard, key, results)
        decreases remaining
      {
        var handler :| handler in remaining;
        PressEntriesAdd(asked, handler, keyboard, key, results);
        if handler in results {
          var press := KeyPress(keyboard, key, handler);
          if press in keypressHandlers {
            return Err(DuplicateKey);
          }
          MergeUpdate(old(keypressHandlers), PressEntries(asked, keyboard, key, results), press, results[handler]);
          keypressHandlers := keypressHandlers[press := results[handler]];
        }
        remaining := remaining - {handler};
        asked := asked + {handler};
      }
      return Ok(());
    }

    /**
     * onKeyReleased: every keyboard handler with a recorded press of this
     * key has the handler it recorded notified (returned, in the order the
     * set is visited, next to the top-level handler) and the record
     * removed; handlers without one are skipped.
     */
    method OnKeyReleased(keyboard: nat, key: nat) returns (notified: seq<(Consumer, Consumer)>)
      modifies this`keypressHandlers
      ensures NotifiedFor(old(keypressHandlers), keyboard, key, keyboardHandlers, notified)
      ensures keypressHandlers == Released(old(keypressHandlers), keyboard, key, keyboardHandlers)
      ensures forall h :: h in keyboardHandlers ==> KeyPress(keyboard, key, h) !in keypressHandlers
    {
      notified := [];
      ghost var asked: set<Consumer> := {};
      var remaining := keyboardHandlers;
      while remaining != {}
        invariant remaining <= keyboardHandlers && asked == keyboardHandlers - remaining
        invariant NotifiedFor(old(keypressHandlers), keyboard, key, asked, notified)
        invariant keypressHandlers == Released(old(keypressHandlers), keyboard, key, asked)
        decreases remaining
      {
        var handler :| handler in remaining;
        var press := KeyPress(keyboard, key, handler);
        ReleasedAdd(old(keypressHandlers), keyboard, key, asked, handler);
        NotifiedStep(old(keypressHandlers), keyboard, key, asked, notified, handler);
        if press in keypressHandlers {
          notified := notified + [(handler, keypressHandlers[press])];
          keypressHandlers := keypressHandlers - {press};
        }
        remaining := remaining - {handler};
        asked := asked + {handler};
      }
    }
  }
}
