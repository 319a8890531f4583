/** Which component has the focus while overlays are shown, hidden, focused and removed. */
module OverlayFocus {

  class Component {
    /** Whether the component has a `focused` flag at all. */
    const focusable: bool
    var focused: bool

    constructor (focusable: bool)
      ensures this.focusable == focusable && !focused
    {
      this.focusable, focused := focusable, false;
    }
  }

  class OverlayEntry {
    const component: Component
    const capturing: bool
    /** What the `visible` callback answers at the moment; always true without one. */
    var shown: bool
    var hidden: bool
    var preFocus: Component?
    var focusOrder: nat

    constructor (component: Component, capturing: bool, shown: bool, preFocus: Component?, focusOrder: nat)
      ensures this.component == component && this.capturing == capturing && this.shown == shown && !hidden
      ensures this.preFocus == preFocus && this.focusOrder == focusOrder
    {
      this.component, this.capturing, this.shown, hidden := component, capturing, shown, false;
      this.preFocus, this.focusOrder := preFocus, focusOrder;
    }

    predicate IsVisible()
      reads this
    {
      !hidden && shown
    }
  }

  datatype Resume = RestoreOverlay | FocusTarget(target: Component?)

  /** Whether an overlay is to get the focus back, and which component it is waiting for. */
  datatype Restore =
    | Inactive
    | Eligible(overlay: OverlayEntry)
    | Blocked(overlay: OverlayEntry, blockedBy: Component, resume: Resume)

  datatype RestorePolicy = Clear | Preserve

  /** The first overlay of the stack showing `c`. */
  function FindOverlay(stack: seq<OverlayEntry>, c: Component?): (r: OverlayEntry?)
    ensures r != null ==> r in stack && r.component == c
    ensures r == null ==> forall e <- stack :: e.component != c
  {
    if stack == [] then null
    else if stack[0].component == c then stack[0]
    else FindOverlay(stack[1..], c)
  }

  /** The first visible overlay of the stack showing `c`. */
  function FindVisible(stack: seq<OverlayEntry>, c: Component?): (r: OverlayEntry?)
    reads stack
    ensures r != null ==> r in stack && r.component == c && r.IsVisible()
    ensures r == null ==> forall e <- stack :: e.component == c ==> !e.IsVisible()
  {
    if stack == [] then null
    else if stack[0].component == c && stack[0].IsVisible() then stack[0]
    else FindVisible(stack[1..], c)
  }

  /** Both find the first one. */
  lemma {:induction false} FirstIsFound(stack: seq<OverlayEntry>, c: Component?, i: nat)
    requires i < |stack| && stack[i].component == c
    ensures (forall j :: 0 <= j < i ==> stack[j].component != c) ==> FindOverlay(stack, c) == stack[i]
    ensures stack[i].IsVisible() && (forall j :: 0 <= j < i && stack[j].component == c ==> !stack[j].IsVisible()) ==>
              FindVisible(stack, c) == stack[i]
  {
    if i > 0 {
      assert forall k :: 0 <= k < |stack| - 1 ==> stack[1..][k] == stack[k + 1];
      FirstIsFound(stack[1..], c, i - 1);
    }
  }

  /** One step up the chain of previous focuses. */
  function Up(stack: seq<OverlayEntry>, c: Component?): Component?
    reads stack
  {
    var e := FindOverlay(stack, c);
    if c == null || e == null then null else e.preFocus
  }

  function Ancestor(stack: seq<OverlayEntry>, c: Component?, k: nat): Component?
    reads stack
  {
    if k == 0 then c else Up(stack, Ancestor(stack, c, k - 1))
  }

  lemma {:induction false} ChainStays(stack: seq<OverlayEntry>, c: Component?, k: nat, closed: set<Component?>)
    requires c in closed && forall d <- closed :: Up(stack, d) in closed
    ensures Ancestor(stack, c, k) in closed
  {
    if k > 0 {
      ChainStays(stack, c, k - 1, closed);
    }
  }

  /** What is left of a restore state when `entry` gives up its claim. */
  function Without(r: Restore, entry: OverlayEntry): Restore {
    if !r.Inactive? && r.overlay == entry then Inactive else r
  }

  predicate OnStack(stack: seq<OverlayEntry>, c: Component?) {
    exists e <- stack :: e.component == c
  }

  class TUI {
    var focusedComponent: Component?
    var overlayStack: seq<OverlayEntry>
    var overlayFocusRestore: Restore
    var focusOrderCounter: nat
    /** The components in the tree below the root. */
    var mounted: set<Component>
    /** Every component the application uses, and every overlay entry ever made. */
    ghost var components: set<Component>
    ghost var entries: set<OverlayEntry>

    /** The flag of a focusable component is set exactly while it is the focused one. */
    ghost predicate FlagsAgree()
      reads `focusedComponent, `components, components
    {
      forall c <- components :: c.focusable ==> (c.focused <==> c == focusedComponent)
    }

    ghost predicate Known(c: Component?)
      reads `components
    {
      c != null ==> c in components
    }

    ghost predicate StackSound()
      reads `overlayStack, `focusOrderCounter, `components, `entries, entries
    {
      && (forall e <- entries :: e.component in components && Known(e.preFocus))
      && (forall e <- overlayStack :: e in entries && e.focusOrder <= focusOrderCounter)
      && (forall i, j :: 0 <= i < j < |overlayStack| ==> overlayStack[i] != overlayStack[j])
      && (forall i, j :: 0 <= i < j < |overlayStack| ==> overlayStack[i].focusOrder != overlayStack[j].focusOrder)
    }

    /** The overlay to restore is on the stack. */
    ghost predicate RestoreSound()
      reads `overlayFocusRestore, `overlayStack, `components
    {
      && (!overlayFocusRestore.Inactive? ==> overlayFocusRestore.overlay in overlayStack)
      && (overlayFocusRestore.Blocked? ==>
            && Known(overlayFocusRestore.blockedBy)
            && (overlayFocusRestore.resume.FocusTarget? ==> Known(overlayFocusRestore.resume.target)))
    }

    ghost predicate Valid()
      reads this, components, entries
    {
      FlagsAgree() && Known(focusedComponent) && StackSound() && RestoreSound()
    }

    constructor (components: set<Component>)
      requires forall c <- components :: !c.focused
      ensures Valid() && this.components == components
    {
      focusedComponent, overlayStack, overlayFocusRestore, focusOrderCounter := null, [], Inactive, 0;
      mounted, this.components, entries := {}, components, {};
    }

    // ----- restore state -----

    /** `getVisibleOverlayFocusRestore` */
    function VisibleRestore(): (r: Restore)
      reads this, overlayStack
      ensures r.Inactive? || r == overlayFocusRestore
      ensures !r.Inactive? ==> r.overlay in overlayStack && r.overlay.IsVisible()
    {
      if overlayFocusRestore.Inactive? then Inactive
      else if overlayFocusRestore.overlay !in overlayStack then Inactive
      else if !overlayFocusRestore.overlay.IsVisible() then Inactive
      else overlayFocusRestore
    }

    method ClearRestoreFor(overlay: OverlayEntry)
      requires Valid()
      modifies this`overlayFocusRestore
      ensures Valid() && overlayFocusRestore == Without(old(overlayFocusRestore), overlay)
    {
      if !overlayFocusRestore.Inactive? && overlayFocusRestore.overlay == overlay {
        overlayFocusRestore := Inactive;
      }
    }

    /** `isOverlayFocusAncestor`: true exactly when `component` is somewhere up the chain, cyclic or not. */
    method IsFocusAncestor(entry: OverlayEntry, component: Component) returns (found: bool)
      requires Valid() && entry in entries
      ensures found <==> IsAncestor(entry, component)
    {
      var visited: set<Component> := {};
      var current := entry.preFocus;
      ghost var k: nat := 0;
      while current != null && current !in visited
        invariant visited <= components && Known(current)
        invariant component !in visited
        invariant current == Ancestor(overlayStack, entry.preFocus, k)
        invariant entry.preFocus in visited || entry.preFocus == current
        invariant forall d <- visited :: Up(overlayStack, d) == current || Up(overlayStack, d) in visited
        decreases components - visited
      {
        visited := visited + {current};
        if current == component {
          return true;
        }
        var overlay := FindOverlay(overlayStack, current);
        current := if overlay == null then null else overlay.preFocus;
        k := k + 1;
      }
      ghost var closed: set<Component?> := visited + {null};
      forall k: nat
        ensures Ancestor(overlayStack, entry.preFocus, k) != component
      {
        ChainStays(overlayStack, entry.preFocus, k, closed);
      }
      return false;
    }

    // ----- focus -----

    /** Where a blocked restore state sends the focus. */
    function ResumeTarget(r: Restore): Component?
      requires r.Blocked?
    {
      if r.resume.RestoreOverlay? then r.overlay.component else r.resume.target
    }

    /** Under restore state r, moving the focus from `from` to `c` goes elsewhere: `from` was holding a visible
        overlay back, and gives way to a target other than an overlay without being left in place. */
    predicate Deflects(r: Restore, from: Component?, c: Component?)
      reads `overlayStack, `mounted, overlayStack
    {
      && !(c != null && OnStack(overlayStack, c))
      && r.Blocked? && r.blockedBy == from
      && r.overlay in overlayStack && r.overlay.IsVisible()
      && (c == null || r.resume.FocusTarget? || r.blockedBy !in mounted)
    }

    predicate Redirects(c: Component?)
      reads this, overlayStack
    {
      Deflects(overlayFocusRestore, focusedComponent, c)
    }

    /** `c` is somewhere up the chain of previous focuses of `entry`. */
    ghost predicate IsAncestor(entry: OverlayEntry, c: Component)
      reads this, overlayStack, entry
    {
      exists k: nat :: Ancestor(overlayStack, entry.preFocus, k) == c
    }

    /** The restore state after the focus is asked to move to `c`, unless it reaches a visible overlay: a target
        that is no overlay becomes what the overlay waits for, when it takes over from what the overlay waited
        for so far, or takes the focus from the overlay itself without being what the overlay was opened from. */
    ghost function RestoreAfter(c: Component?, policy: RestorePolicy): Restore
      reads this, overlayStack
    {
      var r := VisibleRestore();
      if Redirects(c) then (if r.resume.RestoreOverlay? then overlayFocusRestore else Inactive)
      else if c == null then (if policy.Clear? then Inactive else overlayFocusRestore)
      else if OnStack(overlayStack, c) then overlayFocusRestore
      else if r.Blocked? && r.blockedBy == focusedComponent then r.(blockedBy := c)
      else if !r.Inactive? && focusedComponent != null && FindVisible(overlayStack, focusedComponent) == r.overlay
              && !IsAncestor(r.overlay, c) then Blocked(r.overlay, c, RestoreOverlay)
      else overlayFocusRestore
    }

    /** As a move of the focus leaves things: a focused visible overlay is the one to restore, and with nothing
        focused none is. */
    predicate Settled()
      reads this, overlayStack
    {
      && (focusedComponent == null ==> overlayFocusRestore.Inactive?)
      && (FindVisible(overlayStack, focusedComponent) != null ==>
            overlayFocusRestore == Eligible(FindVisible(overlayStack, focusedComponent)))
    }

    method SetFocus(c: Component?)
      requires Valid() && Known(c)
      modifies this`focusedComponent, this`overlayFocusRestore, components`focused
      ensures Valid()
      ensures focusedComponent == if old(Redirects(c)) then old(ResumeTarget(VisibleRestore())) else c
      ensures overlayFocusRestore == if FindVisible(overlayStack, focusedComponent) != null
                                     then Eligible(FindVisible(overlayStack, focusedComponent))
                                     else old(RestoreAfter(c, Clear))
      ensures Settled()
    {
      hide FlagsAgree, StackSound;
      SetFocusInternal(c, Clear);
    }

    /** `setFocusInternal` */
    method SetFocusInternal(c: Component?, policy: RestorePolicy)
      requires Valid() && Known(c)
      modifies this`focusedComponent, this`overlayFocusRestore, components`focused
      ensures Valid()
      ensures focusedComponent == if old(Redirects(c)) then old(ResumeTarget(VisibleRestore())) else c
      ensures overlayFocusRestore == if FindVisible(overlayStack, focusedComponent) != null
                                     then Eligible(FindVisible(overlayStack, focusedComponent))
                                     else old(RestoreAfter(c, policy))
    {
      hide FlagsAgree, StackSound, RestoreAfter, Redirects;
      var nextFocus := ChooseFocus(c, policy);
      MoveFocus(nextFocus);
      var focusedOverlay := if nextFocus != null then FindVisible(overlayStack, nextFocus) else null;
      if focusedOverlay != null {
        overlayFocusRestore := Eligible(focusedOverlay);
      }
    }

    /** The first half: where the focus goes, and what becomes of the restore state. */
    method ChooseFocus(c: Component?, policy: RestorePolicy) returns (nextFocus: Component?)
      requires Valid() && Known(c)
      modifies this`overlayFocusRestore
      ensures Valid() && Known(nextFocus)
      ensures nextFocus == if old(Redirects(c)) then old(ResumeTarget(VisibleRestore())) else c
      ensures overlayFocusRestore == old(RestoreAfter(c, policy))
    {
      nextFocus := c;
      var previousFocus := focusedComponent;
      var previousOverlay := if previousFocus != null then FindVisible(overlayStack, previousFocus) else null;
      var nextFocusIsOverlay := c != null && OnStack(overlayStack, c);
      var restoreState := VisibleRestore();
      if c != null && !nextFocusIsOverlay {
        if restoreState.Blocked? && restoreState.blockedBy == previousFocus {
          if restoreState.resume.FocusTarget? || restoreState.blockedBy !in mounted {
            nextFocus := Resolve(restoreState);
          } else {
            overlayFocusRestore := Blocked(restoreState.overlay, c, restoreState.resume);
          }
        } else if previousOverlay != null && !restoreState.Inactive? && restoreState.overlay == previousOverlay {
          var ancestor := IsFocusAncestor(previousOverlay, c);
          if !ancestor {
            overlayFocusRestore := Blocked(previousOverlay, c, RestoreOverlay);
          }
        }
      } else if c == null {
        if restoreState.Blocked? && restoreState.blockedBy == previousFocus {
          nextFocus := Resolve(restoreState);
        } else if policy.Clear? {
          overlayFocusRestore := Inactive;
        }
      }
    }

    /** `resolveBlockedOverlayFocusResume` */
    method Resolve(restoreState: Restore) returns (target: Component?)
      requires restoreState.Blocked?
      modifies this`overlayFocusRestore
      ensures target == ResumeTarget(restoreState)
      ensures overlayFocusRestore == if restoreState.resume.RestoreOverlay? then old(overlayFocusRestore) else Inactive
    {
      if restoreState.resume.RestoreOverlay? {
        return restoreState.overlay.component;
      }
      overlayFocusRestore := Inactive;
      return restoreState.resume.target;
    }

    /** The second half: the flags of the old and the new focus. */
    method MoveFocus(nextFocus: Component?)
      requires Valid() && Known(nextFocus)
      modifies this`focusedComponent, components`focused
      ensures Valid() && focusedComponent == nextFocus
    {
      if focusedComponent != null && focusedComponent.focusable {
        focusedComponent.focused := false;
      }
      focusedComponent := nextFocus;
      if nextFocus != null && nextFocus.focusable {
        nextFocus.focused := true;
      }
    }

    // ----- overlays -----

    predicate Captures(e: OverlayEntry)
      reads e
    {
      e.capturing && e.IsVisible()
    }

    /** The visible capturing overlay most recently brought to the front. */
    predicate IsTopmost(top: OverlayEntry)
      reads this, overlayStack
    {
      && top in overlayStack && Captures(top)
      && forall e <- overlayStack :: Captures(e) ==> e.focusOrder <= top.focusOrder
    }

    predicate NoneCaptures()
      reads this, overlayStack
    {
      forall e <- overlayStack :: !Captures(e)
    }

    /** `getTopmostVisibleOverlay` */
    method GetTopmost() returns (top: OverlayEntry?)
      ensures if top == null then NoneCaptures() else IsTopmost(top)
    {
      top := null;
      for i := 0 to |overlayStack|
        invariant top == null ==> forall j :: 0 <= j < i ==> !Captures(overlayStack[j])
        invariant top != null ==> top in overlayStack[..i] && Captures(top)
        invariant top != null ==>
                    forall j :: 0 <= j < i && Captures(overlayStack[j]) ==> overlayStack[j].focusOrder <= top.focusOrder
      {
        var overlay := overlayStack[i];
        if Captures(overlay) && (top == null || overlay.focusOrder > top.focusOrder) {
          top := overlay;
        }
      }
    }

    /** The focus is where it goes when `entry` no longer has it: the topmost capturing overlay, or what was
        focused before `entry`. */
    predicate FellBack(entry: OverlayEntry)
      reads this, overlayStack, entry
    {
      || (NoneCaptures() && focusedComponent == entry.preFocus)
      || exists top <- overlayStack :: IsTopmost(top) && focusedComponent == top.component
    }

    /** The focus has been given up by `entry`, which had it, under restore state r: unless an overlay captures it,
        another overlay that `entry` was holding back may resume. */
    predicate GaveUp(entry: OverlayEntry, r: Restore)
      reads this, overlayStack, entry
    {
      if NoneCaptures() && Deflects(r, entry.component, entry.preFocus)
      then focusedComponent == ResumeTarget(r)
      else FellBack(entry)
    }

    method FallBack(entry: OverlayEntry)
      requires Valid() && entry in entries && focusedComponent == entry.component
      modifies this`focusedComponent, this`overlayFocusRestore, components`focused
      ensures Valid() && GaveUp(entry, old(overlayFocusRestore)) && Settled()
    {
      var top := GetTopmost();
      SetFocus(if top != null then top.component else entry.preFocus);
    }

    /** `showOverlay` */
    method ShowOverlay(component: Component, capturing: bool, shown: bool) returns (entry: OverlayEntry)
      requires Valid() && component in components
      modifies this`overlayStack, this`entries, this`focusOrderCounter, this`focusedComponent,
               this`overlayFocusRestore, components`focused
      ensures Valid() && fresh(entry) && entries == old(entries) + {entry}
      ensures overlayStack == old(overlayStack) + [entry]
      ensures entry.component == component && entry.capturing == capturing && entry.shown == shown && !entry.hidden
      ensures entry.preFocus == old(focusedComponent)
      ensures forall e <- old(overlayStack) :: e.focusOrder < entry.focusOrder
      ensures focusedComponent == if capturing && shown then component else old(focusedComponent)
      ensures capturing && shown ==> overlayFocusRestore == Eligible(FindVisible(overlayStack, component))
      ensures !(capturing && shown) ==> overlayFocusRestore == old(overlayFocusRestore)
    {
      hide StackSound, RestoreSound, FlagsAgree;
      entry := Push(component, capturing, shown);
      assert OnStack(overlayStack, component);
      if capturing && entry.IsVisible() {
        SetFocus(component);
      }
    }

    method Push(component: Component, capturing: bool, shown: bool) returns (entry: OverlayEntry)
      requires Valid() && component in components
      modifies this`overlayStack, this`entries, this`focusOrderCounter
      ensures Valid() && fresh(entry) && entries == old(entries) + {entry}
      ensures overlayStack == old(overlayStack) + [entry]
      ensures entry.component == component && entry.capturing == capturing && entry.shown == shown && !entry.hidden
      ensures entry.preFocus == focusedComponent
      ensures forall e <- old(overlayStack) :: e.focusOrder < entry.focusOrder
    {
      focusOrderCounter := focusOrderCounter + 1;
      entry := new OverlayEntry(component, capturing, shown, focusedComponent, focusOrderCounter);
      entries := entries + {entry};
      overlayStack := overlayStack + [entry];
      assert forall e <- old(overlayStack) :: e in old(entries);
    }

    /** `retargetOverlayPreFocus`: overlays opened over `removed` fall back to what it would fall back to. */
    method Retarget(removed: OverlayEntry)
      requires Valid() && removed in overlayStack
      modifies entries`preFocus
      ensures Valid()
      ensures forall e <- entries ::
                e.preFocus == if e in overlayStack && e != removed && old(e.preFocus) == removed.component
                              then old(removed.preFocus) else old(e.preFocus)
    {
      for i := 0 to |overlayStack|
        invariant Valid()
        invariant forall e <- entries ::
                    e.preFocus == if e in overlayStack[..i] && e != removed && old(e.preFocus) == removed.component
                                  then old(removed.preFocus) else old(e.preFocus)
      {
        var overlay := overlayStack[i];
        if overlay != removed && overlay.preFocus == removed.component {
          overlay.preFocus := removed.preFocus;
        }
        assert overlayStack[..i + 1] == overlayStack[..i] + [overlay];
      }
    }

    /** The entries on `stack` that would have fallen back to `removed` now fall back to what it would fall back to. */
    twostate predicate Retargeted(all: set<OverlayEntry>, stack: seq<OverlayEntry>, removed: OverlayEntry)
      reads all
    {
      forall e <- all ::
        e.preFocus == if e in stack && e != removed && old(e.preFocus) == removed.component
                      then old(removed.preFocus) else old(e.preFocus)
    }

    /** Removing the overlay at `index`. */
    method RemoveAt(index: nat)
      requires Valid() && index < |overlayStack|
      modifies this`overlayStack, this`focusedComponent, this`overlayFocusRestore, components`focused, entries`preFocus
      ensures Valid()
      ensures overlayStack == old(overlayStack[..index] + overlayStack[index + 1..])
      ensures old(overlayStack)[index] !in overlayStack
      ensures var entry := old(overlayStack)[index];
              && entry.preFocus == old(entry.preFocus)
              && Retargeted(old(entries), old(overlayStack), entry)
              && (old(focusedComponent) != entry.component ==>
                    && focusedComponent == old(focusedComponent)
                    && overlayFocusRestore == Without(old(overlayFocusRestore), entry))
              && (old(focusedComponent) == entry.component ==> GaveUp(entry, old(overlayFocusRestore)) && Settled())
    {
      hide StackSound, RestoreSound, FlagsAgree, Known, FellBack, Settled;
      var entry := Detach(index);
      if focusedComponent == entry.component {
        FallBack(entry);
      }
    }

    lemma InEntries(entry: OverlayEntry)
      requires Valid() && entry in overlayStack
      ensures entry in entries && entry.component in components && Known(entry.preFocus)
    {
    }

    /** The overlay at `index` leaves the stack, the restore state and the chain of previous focuses. */
    method Detach(index: nat) returns (entry: OverlayEntry)
      requires Valid() && index < |overlayStack|
      modifies this`overlayStack, this`overlayFocusRestore, entries`preFocus
      ensures Valid()
      ensures entry == old(overlayStack)[index] && entry in entries && entry !in overlayStack
      ensures overlayStack == old(overlayStack[..index] + overlayStack[index + 1..])
      ensures entry.preFocus == old(entry.preFocus)
      ensures overlayFocusRestore == Without(old(overlayFocusRestore), entry)
      ensures Retargeted(old(entries), old(overlayStack), entry)
    {
      hide FlagsAgree, StackSound;
      entry := overlayStack[index];
      ClearRestoreFor(entry);
      InEntries(entry);
      Retarget(entry);
      Splice(index);
    }

    method Splice(index: nat)
      requires Valid() && index < |overlayStack|
      requires overlayFocusRestore == Without(overlayFocusRestore, overlayStack[index])
      modifies this`overlayStack
      ensures Valid() && old(overlayStack)[index] !in overlayStack
      ensures overlayStack == old(overlayStack[..index] + overlayStack[index + 1..])
    {
      overlayStack := overlayStack[..index] + overlayStack[index + 1..];
    }

    method IndexOf(entry: OverlayEntry) returns (index: int)
      ensures index == -1 ==> entry !in overlayStack
      ensures index != -1 ==> 0 <= index < |overlayStack| && overlayStack[index] == entry
    {
      for i := 0 to |overlayStack|
        invariant entry !in overlayStack[..i]
      {
        if overlayStack[i] == entry {
          return i;
        }
      }
      return -1;
    }

    /** The handle's `hide`: for good, and only once. */
    method Hide(entry: OverlayEntry)
      requires Valid() && entry in entries
      modifies this`overlayStack, this`focusedComponent, this`overlayFocusRestore, components`focused, entries`preFocus
      ensures Valid() && entry !in overlayStack
      ensures entry !in old(overlayStack) ==>
                && overlayStack == old(overlayStack) && focusedComponent == old(focusedComponent)
                && overlayFocusRestore == old(overlayFocusRestore)
                && forall e <- entries :: e.preFocus == old(e.preFocus)
      ensures entry in old(overlayStack) ==>
                && (exists index :: 0 <= index < |old(overlayStack)| && old(overlayStack)[index] == entry
                      && overlayStack == old(overlayStack[..index] + overlayStack[index + 1..]))
                && Retargeted(old(entries), old(overlayStack), entry)
                && (old(focusedComponent) != entry.component ==>
                      && focusedComponent == old(focusedComponent)
                      && overlayFocusRestore == Without(old(overlayFocusRestore), entry))
                && (old(focusedComponent) == entry.component ==>
                      GaveUp(entry, old(overlayFocusRestore)) && Settled())
    {
      var index := IndexOf(entry);
      if index != -1 {
        RemoveAt(index);
      }
    }

    /** `hideOverlay`: removes the overlay shown last. */
    method HideOverlay()
      requires Valid()
      modifies this`overlayStack, this`focusedComponent, this`overlayFocusRestore, components`focused, entries`preFocus
      ensures Valid()
      ensures old(overlayStack) == [] ==>
                && overlayStack == [] && focusedComponent == old(focusedComponent)
                && overlayFocusRestore == old(overlayFocusRestore)
      ensures old(overlayStack) != [] ==>
                var entry := old(overlayStack)[|old(overlayStack)| - 1];
                && overlayStack == old(overlayStack)[..|old(overlayStack)| - 1]
                && entry.preFocus == old(entry.preFocus)
                && Retargeted(old(entries), old(overlayStack), entry)
                && (old(focusedComponent) != entry.component ==>
                      && focusedComponent == old(focusedComponent)
                      && overlayFocusRestore == Without(old(overlayFocusRestore), entry))
                && (old(focusedComponent) == entry.component ==>
                      GaveUp(entry, old(overlayFocusRestore)) && Settled())
    {
      if |overlayStack| == 0 {
        return;
      }
      RemoveAt(|overlayStack| - 1);
    }

    /** The handle's `setHidden`; it also works, on the focus too, after the overlay was removed. */
    method SetHidden(entry: OverlayEntry, hidden: bool)
      requires Valid() && entry in entries
      modifies this`focusOrderCounter, this`focusedComponent, this`overlayFocusRestore, components`focused,
               entry`hidden, entry`focusOrder
      ensures Valid() && entry.hidden == hidden
      ensures old(entry.hidden) == hidden || (!hidden && !Captures(entry)) ==>
                focusedComponent == old(focusedComponent) && overlayFocusRestore == old(overlayFocusRestore)
      ensures !old(entry.hidden) && hidden && old(focusedComponent) != entry.component ==>
                && focusedComponent == old(focusedComponent)
                && overlayFocusRestore == Without(old(overlayFocusRestore), entry)
      ensures !old(entry.hidden) && hidden && old(focusedComponent) == entry.component ==>
                GaveUp(entry, old(overlayFocusRestore)) && Settled()
      ensures old(entry.hidden) && !hidden && entry in overlayStack && Captures(entry) ==>
                IsTopmost(entry) && focusedComponent == entry.component && Settled()
      ensures old(entry.hidden) && !hidden && entry !in overlayStack && Captures(entry) ==>
                Went(entry.component, old(overlayFocusRestore), old(focusedComponent)) && Settled()
      ensures !(old(entry.hidden) && !hidden && Captures(entry)) ==> entry.focusOrder == old(entry.focusOrder)
    {
      assert entry.component in components;
      hide StackSound, RestoreSound, FlagsAgree, Settled;
      if entry.hidden == hidden {
        return;
      }
      Mark(entry, hidden);
      if hidden {
        ClearRestoreFor(entry);
        if focusedComponent == entry.component {
          FallBack(entry);
        }
      } else if entry.capturing && entry.IsVisible() {
        BringToFront(entry);
        SetFocus(entry.component);
      }
    }

    method Mark(entry: OverlayEntry, hidden: bool)
      requires Valid()
      modifies entry`hidden
      ensures Valid() && entry.hidden == hidden
    {
      entry.hidden := hidden;
    }

    method BringToFront(entry: OverlayEntry)
      requires Valid() && entry in entries
      modifies this`focusOrderCounter, entry`focusOrder
      ensures Valid() && forall e <- overlayStack :: e == entry || e.focusOrder < entry.focusOrder
    {
      focusOrderCounter := focusOrderCounter + 1;
      entry.focusOrder := focusOrderCounter;
    }

    /** The handle's `focus` */
    method Focus(entry: OverlayEntry)
      requires Valid() && entry in entries
      modifies this`focusOrderCounter, this`focusedComponent, this`overlayFocusRestore, components`focused,
               entry`focusOrder
      ensures Valid()
      ensures if entry in overlayStack && entry.IsVisible()
              then focusedComponent == entry.component && Settled()
                   && forall e <- overlayStack :: e == entry || e.focusOrder < entry.focusOrder
              else focusedComponent == old(focusedComponent) && overlayFocusRestore == old(overlayFocusRestore)
                   && entry.focusOrder == old(entry.focusOrder)
    {
      if entry !in overlayStack || !entry.IsVisible() {
        return;
      }
      BringToFront(entry);
      SetFocus(entry.component);
    }

    predicate HasFocusOrClaim(entry: OverlayEntry)
      reads this
    {
      focusedComponent == entry.component || (!overlayFocusRestore.Inactive? && overlayFocusRestore.overlay == entry)
    }

    /** `entry` is waiting for the focused component. */
    predicate HeldBack(entry: OverlayEntry)
      reads this
    {
      overlayFocusRestore.Blocked? && overlayFocusRestore.overlay == entry
      && overlayFocusRestore.blockedBy == focusedComponent
    }

    /** The focus was moved from `from` to `c`, under restore state r. */
    predicate Went(c: Component?, r: Restore, from: Component?)
      reads this, overlayStack
    {
      focusedComponent == if Deflects(r, from, c) then ResumeTarget(r) else c
    }

    /** `entry` had the focus and gave it to the topmost other overlay, or back to what was focused before. */
    predicate LetGo(entry: OverlayEntry, r: Restore)
      reads this, overlayStack, entry
    {
      || ((NoneCaptures() || IsTopmost(entry)) && Went(entry.preFocus, r, entry.component))
      || exists top <- overlayStack :: top != entry && IsTopmost(top) && focusedComponent == top.component
    }

    /** The handle's `unfocus`, with an explicit target (`None` being the root) or without one. */
    method Unfocus(entry: OverlayEntry, explicit: bool, target: Component?)
      requires Valid() && entry in entries && Known(target)
      modifies this`focusedComponent, this`overlayFocusRestore, components`focused
      ensures Valid()
      ensures !old(HasFocusOrClaim(entry)) ==>
                focusedComponent == old(focusedComponent) && overlayFocusRestore == old(overlayFocusRestore)
      ensures old(HeldBack(entry)) ==>
                && focusedComponent == old(focusedComponent)
                && overlayFocusRestore ==
                   (if explicit then old(overlayFocusRestore).(resume := FocusTarget(target)) else Inactive)
      ensures old(HasFocusOrClaim(entry)) && !old(HeldBack(entry)) ==>
                if explicit then Went(target, old(overlayFocusRestore), old(focusedComponent)) && Settled()
                else if old(focusedComponent) != entry.component then
                  && focusedComponent == old(focusedComponent)
                  && overlayFocusRestore == Without(old(overlayFocusRestore), entry)
                else LetGo(entry, old(overlayFocusRestore)) && Settled()
    {
      hide FlagsAgree, StackSound, RestoreAfter, Redirects, Settled;
      var isFocused := focusedComponent == entry.component;
      var restoreState := overlayFocusRestore;
      if !isFocused && (restoreState.Inactive? || restoreState.overlay != entry) {
        return;
      }
      if restoreState.Blocked? && restoreState.overlay == entry && focusedComponent == restoreState.blockedBy {
        overlayFocusRestore :=
          if explicit then Blocked(entry, restoreState.blockedBy, FocusTarget(target)) else Inactive;
        return;
      }
      ClearRestoreFor(entry);
      if isFocused || explicit {
        Release(entry, explicit, target);
      }
    }

    /** `entry` gives up the focus, or its claim to it. */
    method Release(entry: OverlayEntry, explicit: bool, target: Component?)
      requires Valid() && entry in entries && Known(target)
      modifies this`focusedComponent, this`overlayFocusRestore, components`focused
      ensures Valid()
      ensures explicit ==> Went(target, old(overlayFocusRestore), old(focusedComponent))
      ensures !explicit && old(focusedComponent) == entry.component ==> LetGo(entry, old(overlayFocusRestore))
      ensures Settled()
    {
      hide FlagsAgree, RestoreAfter;
      var top := GetTopmost();
      var fallback := if top != null && top != entry then top.component else entry.preFocus;
      SetFocus(if explicit then target else fallback);
    }

    /** No plain component holds the focus while a visible overlay is due to get it back, except the one
        that overlay waits for. */
    predicate NothingBypassed()
      reads this, overlayStack
    {
      OnStack(overlayStack, focusedComponent) || VisibleRestore().Inactive?
      || (VisibleRestore().Blocked? && VisibleRestore().blockedBy == focusedComponent)
    }

    /** Where the focus goes from `from` when input arrives, under restore state r: to a visible overlay that is due
        it, or on from a component that is not the one a blocked overlay waits for. */
    function Resumption(from: Component?, r: Restore): Component?
      reads `overlayStack, overlayStack
    {
      if OnStack(overlayStack, from) || r.Inactive? || r.overlay !in overlayStack || !r.overlay.IsVisible() then from
      else if r.Eligible? then r.overlay.component
      else if r.blockedBy == from then from
      else ResumeTarget(r)
    }

    /** What `handleInput` does about the focus before it passes the input on. */
    method RouteInput()
      requires Valid()
      modifies this`focusedComponent, this`overlayFocusRestore, components`focused
      ensures Valid() && NothingBypassed()
      ensures old(FindOverlay(overlayStack, focusedComponent) != null
                  && FindOverlay(overlayStack, focusedComponent).IsVisible()) ==>
                focusedComponent == old(focusedComponent) && overlayFocusRestore == old(overlayFocusRestore)
      ensures old(FindOverlay(overlayStack, focusedComponent) != null
                  && !FindOverlay(overlayStack, focusedComponent).IsVisible()) && !NoneCaptures() ==>
                exists top <- overlayStack :: IsTopmost(top) && focusedComponent == top.component
      ensures var vanished := old(FindOverlay(overlayStack, focusedComponent));
              vanished != null && !old(vanished.IsVisible()) && NoneCaptures() ==>
                focusedComponent ==
                Resumption(old(if Redirects(vanished.preFocus) then ResumeTarget(VisibleRestore())
                               else vanished.preFocus),
                           old(RestoreAfter(vanished.preFocus, Preserve)))
      ensures var vanished := old(FindOverlay(overlayStack, focusedComponent));
              vanished != null && !old(vanished.IsVisible()) && NoneCaptures() && old(VisibleRestore()).Inactive? ==>
                && focusedComponent == vanished.preFocus
                && (!OnStack(overlayStack, focusedComponent) ==> overlayFocusRestore == old(overlayFocusRestore))
      ensures old(FindOverlay(overlayStack, focusedComponent)) == null ==>
                && focusedComponent == old(Resumption(focusedComponent, overlayFocusRestore))
                && (if old(NothingBypassed()) then overlayFocusRestore == old(overlayFocusRestore)
                    else Settled() && !overlayFocusRestore.Blocked?)
    {
      hide StackSound, RestoreSound, FlagsAgree, RestoreAfter, Redirects;
      var focusedOverlay := FindOverlay(overlayStack, focusedComponent);
      if focusedOverlay != null && !focusedOverlay.IsVisible() {
        HandOver(focusedOverlay);
      }
      if !OnStack(overlayStack, focusedComponent) {
        RestoreFocus();
      }
    }

    /** Without a visible overlay to restore, nothing is redirected and nothing is forgotten. */
    lemma InactiveStays(c: Component?)
      requires Valid() && VisibleRestore().Inactive?
      ensures !Redirects(c) && RestoreAfter(c, Preserve) == overlayFocusRestore
    {
    }

    /** The focused overlay `entry` has vanished: the topmost overlay takes over, or what was focused before. */
    method HandOver(entry: OverlayEntry)
      requires Valid() && entry in overlayStack
      modifies this`focusedComponent, this`overlayFocusRestore, components`focused
      ensures Valid()
      ensures !NoneCaptures() ==>
                exists top <- overlayStack :: IsTopmost(top) && focusedComponent == top.component
      ensures NoneCaptures() ==>
                && focusedComponent ==
                   old(if Redirects(entry.preFocus) then ResumeTarget(VisibleRestore()) else entry.preFocus)
                && (OnStack(overlayStack, focusedComponent)
                    || overlayFocusRestore == old(RestoreAfter(entry.preFocus, Preserve)))
      ensures NoneCaptures() && old(VisibleRestore()).Inactive? ==>
                && focusedComponent == entry.preFocus
                && (OnStack(overlayStack, focusedComponent) || overlayFocusRestore == old(overlayFocusRestore))
    {
      hide FlagsAgree, StackSound, RestoreSound, RestoreAfter, VisibleRestore;
      if VisibleRestore().Inactive? {
        InactiveStays(entry.preFocus);
      }
      var top := GetTopmost();
      if top != null {
        assert !Redirects(top.component);
        InEntries(top);
        SetFocus(top.component);
        assert !old(NoneCaptures()) && IsTopmost(top);
      } else {
        InEntries(entry);
        SetFocusInternal(entry.preFocus, Preserve);
        assert FindVisible(overlayStack, focusedComponent) != null ==> OnStack(overlayStack, focusedComponent);
      }
    }

    method RestoreFocus()
      requires Valid() && !OnStack(overlayStack, focusedComponent)
      modifies this`focusedComponent, this`overlayFocusRestore, components`focused
      ensures Valid() && NothingBypassed()
      ensures focusedComponent == old(Resumption(focusedComponent, overlayFocusRestore))
      ensures if old(NothingBypassed())
              then focusedComponent == old(focusedComponent) && overlayFocusRestore == old(overlayFocusRestore)
              else Settled() && !overlayFocusRestore.Blocked?
    {
      var restoreState := VisibleRestore();
      if restoreState.Eligible? {
        SetFocus(restoreState.overlay.component);
      } else if restoreState.Blocked? && restoreState.blockedBy != focusedComponent {
        if restoreState.resume.RestoreOverlay? {
          SetFocus(restoreState.overlay.component);
        } else {
          overlayFocusRestore := Inactive;
          SetFocus(restoreState.resume.target);
        }
      }
    }

    /** The environment: what is mounted and what the `visible` callbacks answer may change at any time. */
    method Drift(mounted: set<Component>, entry: OverlayEntry, shown: bool)
      requires Valid()
      modifies this`mounted, entry`shown
      ensures Valid() && this.mounted == mounted && entry.shown == shown
    {
      this.mounted, entry.shown := mounted, shown;
    }
  }

  // ----- what the rules come to -----

  /** Showing an overlay and hiding it again gives the focus back to where it was, when no other overlay
      captures it; otherwise to the topmost one that does. */
  method ShowThenHide(tui: TUI, component: Component) returns (entry: OverlayEntry)
    requires tui.Valid() && component in tui.components && !OnStack(tui.overlayStack, component)
    modifies tui, tui.components, tui.entries
    ensures tui.Valid() && tui.overlayStack == old(tui.overlayStack)
    ensures entry.preFocus == old(tui.focusedComponent)
    ensures tui.FellBack(entry)
    ensures tui.NoneCaptures() ==> tui.focusedComponent == old(tui.focusedComponent)
  {
    entry := tui.ShowOverlay(component, true, true);
    assert tui.overlayFocusRestore == Eligible(FindVisible(tui.overlayStack, component));
    tui.HideOverlay();
  }

  /** The ancestors of an overlay: what it was opened from, and what any overlay showing an ancestor was. */
  lemma AncestorsClimb(tui: TUI, entry: OverlayEntry, c: Component)
    ensures tui.IsAncestor(entry, c) <==>
      c == entry.preFocus
      || exists d: Component ::
           tui.IsAncestor(entry, d) && FindOverlay(tui.overlayStack, d) != null
           && FindOverlay(tui.overlayStack, d).preFocus == c
  {
    if c == entry.preFocus {
      assert Ancestor(tui.overlayStack, entry.preFocus, 0) == c;
    }
    if tui.IsAncestor(entry, c) && c != entry.preFocus {
      var k: nat :| Ancestor(tui.overlayStack, entry.preFocus, k) == c;
      var d := Ancestor(tui.overlayStack, entry.preFocus, k - 1);
      assert d != null && tui.IsAncestor(entry, d);
    }
    forall d: Component | tui.IsAncestor(entry, d) && FindOverlay(tui.overlayStack, d) != null
      && FindOverlay(tui.overlayStack, d).preFocus == c
      ensures tui.IsAncestor(entry, c)
    {
      var k: nat :| Ancestor(tui.overlayStack, entry.preFocus, k) == d;
      assert Ancestor(tui.overlayStack, entry.preFocus, k + 1) == c;
    }
  }

  /** The overlay that has the focus and is to have it back. */
  ghost predicate Holds(tui: TUI, entry: OverlayEntry)
    reads tui, tui.overlayStack
  {
    && tui.focusedComponent == entry.component && tui.overlayFocusRestore == Eligible(entry)
    && FindVisible(tui.overlayStack, entry.component) == entry
  }

  /** A plain component: not an overlay's. */
  predicate Plain(tui: TUI, c: Component?)
    reads tui
  {
    c != null && !OnStack(tui.overlayStack, c)
  }

  /** A component that takes the focus from an overlay keeps it while input arrives, and the overlay waits for it. When
      the component gives the focus up, the overlay has it again. */
  method StealAndGiveUp(tui: TUI, entry: OverlayEntry, thief: Component) returns (held: Component?, waiting: Restore)
    requires tui.Valid() && thief in tui.components && Plain(tui, thief)
    requires Holds(tui, entry) && !tui.IsAncestor(entry, thief)
    modifies tui`focusedComponent, tui`overlayFocusRestore, tui.components`focused
    ensures tui.Valid() && Holds(tui, entry)
    ensures held == thief && waiting == Blocked(entry, thief, RestoreOverlay)
  {
    hide TUI.FlagsAgree, TUI.StackSound;
    tui.SetFocus(thief);
    tui.RouteInput();
    held, waiting := tui.focusedComponent, tui.overlayFocusRestore;
    tui.SetFocus(null);
  }

  /** When the component passes the focus on, the overlay waits for the next one, unless the component has been
      taken off the screen: then the overlay has the focus again. */
  method StealAndPassOn(tui: TUI, entry: OverlayEntry, thief: Component, mounted: set<Component>, next: Component)
    requires tui.Valid() && thief in tui.components && Plain(tui, thief) && next in tui.components && Plain(tui, next)
    requires Holds(tui, entry) && !tui.IsAncestor(entry, thief)
    modifies tui`focusedComponent, tui`overlayFocusRestore, tui`mounted, tui.components`focused, entry`shown
    ensures tui.Valid()
    ensures if thief in mounted
            then tui.focusedComponent == next && tui.overlayFocusRestore == Blocked(entry, next, RestoreOverlay)
            else Holds(tui, entry)
  {
    hide TUI.FlagsAgree, TUI.StackSound;
    tui.SetFocus(thief);
    tui.Drift(mounted, entry, entry.shown);
    tui.SetFocus(next);
  }

  /** What the overlay was opened from may have the focus, but only until input arrives. */
  method FocusOpener(tui: TUI, entry: OverlayEntry, opener: Component) returns (held: Component?, waiting: Restore)
    requires tui.Valid() && opener in tui.components && Plain(tui, opener)
    requires Holds(tui, entry) && tui.IsAncestor(entry, opener)
    modifies tui`focusedComponent, tui`overlayFocusRestore, tui.components`focused
    ensures tui.Valid() && Holds(tui, entry)
    ensures held == opener && waiting == Eligible(entry)
  {
    hide TUI.FlagsAgree, TUI.StackSound;
    tui.SetFocus(opener);
    held, waiting := tui.focusedComponent, tui.overlayFocusRestore;
    tui.RouteInput();
  }

  /** An overlay that waits may be told to send the focus elsewhere: it stays for now, and goes there, and not to the
      overlay, when it is next moved to a plain component or to none. */
  method UnfocusWhileWaiting(tui: TUI, entry: OverlayEntry, target: Component?, next: Component?)
    returns (held: Component?)
    requires tui.Valid() && tui.HeldBack(entry) && entry.IsVisible()
    requires tui.Known(target) && tui.Known(next) && (next == null || Plain(tui, next))
    modifies tui`focusedComponent, tui`overlayFocusRestore, tui.components`focused
    ensures tui.Valid() && held == old(tui.focusedComponent) && tui.focusedComponent == target
    ensures tui.overlayFocusRestore == if FindVisible(tui.overlayStack, target) == null then Inactive
                                       else Eligible(FindVisible(tui.overlayStack, target))
  {
    tui.Unfocus(entry, true, target);
    held := tui.focusedComponent;
    tui.SetFocus(next);
  }

  /** Told to give up without a target it lets the focus be, and makes no further claim to it. */
  method UnfocusForGood(tui: TUI, entry: OverlayEntry, next: Component?) returns (held: Component?)
    requires tui.Valid() && tui.HeldBack(entry)
    requires tui.Known(next) && (next == null || Plain(tui, next))
    modifies tui`focusedComponent, tui`overlayFocusRestore, tui.components`focused
    ensures tui.Valid() && held == old(tui.focusedComponent)
    ensures tui.focusedComponent == next && tui.overlayFocusRestore == Inactive
  {
    tui.Unfocus(entry, false, null);
    held := tui.focusedComponent;
    tui.SetFocus(next);
  }

  /** An overlay whose `visible` callback turns it off loses the focus to what was focused before, and has it back
      when the callback turns it on again. */
  method VanishAndReturn(tui: TUI, entry: OverlayEntry) returns (meanwhile: Component?)
    requires tui.Valid() && Holds(tui, entry) && !OnStack(tui.overlayStack, entry.preFocus)
    requires entry.capturing
    requires forall e <- tui.overlayStack :: e != entry ==> !tui.Captures(e) && e.component != entry.component
    modifies tui`focusedComponent, tui`overlayFocusRestore, tui`mounted, tui.components`focused, entry`shown
    ensures tui.Valid() && meanwhile == old(entry.preFocus)
    ensures Holds(tui, entry)
  {
    hide TUI.FlagsAgree, TUI.StackSound;
    tui.Drift(tui.mounted, entry, false);
    tui.RouteInput();
    meanwhile := tui.focusedComponent;
    tui.Drift(tui.mounted, entry, true);
    tui.RouteInput();
  }
}
