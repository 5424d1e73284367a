/** Resolving a path against a base: components on a stack, kept joined in a 96-byte buffer. */
module PfsPaths {
  import opened Common
  import opened PfsFormat
  import opened PfsTable

  type Component = seq<byte>

  const DOT: byte := 46
  const HERE: Component := [DOT]
  const UP: Component := [DOT, DOT]

  // ---- Splitting and joining ----

  /** Where the first component of `b`, from `i` on, ends. */
  function WordEnd(b: seq<byte>, i: nat): (r: nat)
    requires i <= |b|
    ensures i <= r <= |b| && (r < |b| ==> b[r] == SLASH)
    ensures forall k :: i <= k < r ==> b[k] != SLASH
    decreases |b| - i
  {
    if i == |b| || b[i] == SLASH then i else WordEnd(b, i + 1)
  }

  /** The components of a path: the maximal stretches without a slash. */
  function Split(b: seq<byte>): seq<Component>
    decreases |b|
  {
    if b == [] then []
    else if b[0] == SLASH then Split(b[1..])
    else [b[..WordEnd(b, 0)]] + Split(b[WordEnd(b, 0)..])
  }

  function Join(stack: seq<Component>): seq<byte> {
    if stack == [] then []
    else if |stack| == 1 then stack[0]
    else Join(stack[..|stack| - 1]) + [SLASH] + stack[|stack| - 1]
  }

  predicate ValidComponent(c: Component) {
    c != [] && forall k :: 0 <= k < |c| ==> NameByte(c[k])
  }

  /** A stack of components that fits the buffer. */
  predicate StackOk(stack: seq<Component>) {
    (forall i :: 0 <= i < |stack| ==> ValidComponent(stack[i])) && |Join(stack)| <= NAME_MAX
  }

  // ---- The fold ----

  function Push(stack: seq<Component>, c: Component): Option<seq<Component>> {
    if ValidComponent(c) && |Join(stack + [c])| <= NAME_MAX then Some(stack + [c]) else None
  }

  function Pop(stack: seq<Component>): seq<Component> {
    if stack == [] then [] else stack[..|stack| - 1]
  }

  function PushAll(stack: seq<Component>, cs: seq<Component>): Option<seq<Component>>
    decreases |cs|
  {
    if cs == [] then Some(stack)
    else
      var s := Push(stack, cs[0]);
      if s.None? then None else PushAll(s.value, cs[1..])
  }

  function Walk(stack: seq<Component>, c: Component): Option<seq<Component>> {
    if c == HERE then Some(stack) else if c == UP then Some(Pop(stack)) else Push(stack, c)
  }

  function WalkAll(stack: seq<Component>, cs: seq<Component>): Option<seq<Component>>
    decreases |cs|
  {
    if cs == [] then Some(stack)
    else
      var s := Walk(stack, cs[0]);
      if s.None? then None else WalkAll(s.value, cs[1..])
  }

  predicate IsAbsolute(path: seq<byte>) {
    path != [] && path[0] == SLASH
  }

  /** The stack a path leads to from a base; None if a component is invalid or something gets too long. */
  function Resolved(base: seq<byte>, path: seq<byte>): Option<seq<Component>> {
    var start := if IsAbsolute(path) then Some([]) else PushAll([], Split(base));
    if start.None? then None else WalkAll(start.value, Split(if IsAbsolute(path) then path[1..] else path))
  }

  // ---- Joined stacks ----

  lemma JoinLast(stack: seq<Component>, c: Component)
    ensures Join(stack + [c]) == if stack == [] then c else Join(stack) + [SLASH] + c
  {
    assert (stack + [c])[..|stack|] == stack;
  }

  lemma {:induction false} JoinValid(stack: seq<Component>)
    requires forall i :: 0 <= i < |stack| ==> ValidComponent(stack[i])
    ensures stack == [] <==> Join(stack) == []
    ensures forall k :: 0 <= k < |Join(stack)| ==> Join(stack)[k] == SLASH || NameByte(Join(stack)[k])
    ensures stack != [] ==> Join(stack)[0] != SLASH && Join(stack)[|Join(stack)| - 1] != SLASH
    ensures forall j, k :: 0 <= j < |Join(stack)| && 0 <= k < |Join(stack)| && k == j + 1 ==>
      !(Join(stack)[j] == SLASH && Join(stack)[k] == SLASH)
  {
    assert !NameByte(SLASH);
    if |stack| > 1 {
      JoinValid(stack[..|stack| - 1]);
    }
  }

  /** A joined stack is a valid path that does not start with a slash. */
  lemma JoinIsPath(stack: seq<Component>)
    requires StackOk(stack) && stack != []
    ensures ValidPath(Join(stack)) && Join(stack)[0] != SLASH
  {
    JoinValid(stack);
  }

  lemma {:induction false} WordEndAt(b: seq<byte>, i: nat, n: nat)
    requires i <= n <= |b| && (forall k :: i <= k < n ==> b[k] != SLASH) && (n < |b| ==> b[n] == SLASH)
    ensures WordEnd(b, i) == n
    decreases n - i
  {
    if i < n {
      WordEndAt(b, i + 1, n);
    }
  }

  lemma SplitWord(c: Component, rest: seq<byte>)
    requires ValidComponent(c) && (rest != [] ==> rest[0] == SLASH)
    ensures Split(c + rest) == [c] + Split(rest)
  {
    var b := c + rest;
    assert !NameByte(SLASH);
    assert forall k :: 0 <= k < |c| ==> b[k] == c[k] != SLASH;
    WordEndAt(b, 0, |c|);
    assert b[..|c|] == c && b[|c|..] == rest;
  }

  lemma SplitSlash(rest: seq<byte>)
    ensures Split([SLASH] + rest) == Split(rest)
  {
    assert ([SLASH] + rest)[1..] == rest;
  }

  /** Splitting undoes joining. */
  lemma {:induction false} SplitJoin(stack: seq<Component>, rest: seq<byte>)
    requires (forall i :: 0 <= i < |stack| ==> ValidComponent(stack[i])) && (rest != [] ==> rest[0] == SLASH)
    ensures Split(Join(stack) + rest) == stack + Split(rest)
    decreases |stack|
  {
    hide Split, ValidComponent;
    if stack == [] {
      assert Join(stack) + rest == rest;
    } else {
      var n := |stack| - 1;
      var front, last := stack[..n], stack[n];
      var tail := last + rest;
      SplitWord(last, rest);
      JoinRest(front, last, rest);
      assert stack == front + [last];
      if n > 0 {
        SplitJoin(front, [SLASH] + tail);
        SplitSlash(tail);
      }
      assert front + ([last] + Split(rest)) == stack + Split(rest);
    }
  }

  lemma JoinRest(front: seq<Component>, last: Component, rest: seq<byte>)
    ensures Join(front + [last]) + rest ==
            if front == [] then last + rest else Join(front) + ([SLASH] + (last + rest))
  {
    JoinLast(front, last);
  }

  // ---- What resolving keeps ----

  predicate NoDots(cs: seq<Component>) {
    forall i :: 0 <= i < |cs| ==> cs[i] != HERE && cs[i] != UP
  }

  lemma PopOk(stack: seq<Component>)
    requires StackOk(stack)
    ensures StackOk(Pop(stack)) && (NoDots(stack) ==> NoDots(Pop(stack)))
  {
    if stack != [] {
      JoinLast(Pop(stack), stack[|stack| - 1]);
      assert Pop(stack) + [stack[|stack| - 1]] == stack;
    }
  }

  lemma {:induction false} PushAllOk(stack: seq<Component>, cs: seq<Component>)
    requires StackOk(stack)
    ensures var r := PushAll(stack, cs); r.Some? ==> StackOk(r.value) && r.value == stack + cs
    decreases |cs|
  {
    if cs != [] && Push(stack, cs[0]).Some? {
      PushAllOk(stack + [cs[0]], cs[1..]);
      assert stack + [cs[0]] + cs[1..] == stack + cs;
    }
  }

  lemma {:induction false} WalkAllOk(stack: seq<Component>, cs: seq<Component>)
    requires StackOk(stack) && NoDots(stack)
    ensures var r := WalkAll(stack, cs); r.Some? ==> StackOk(r.value) && NoDots(r.value)
    decreases |cs|
  {
    if cs != [] {
      PopOk(stack);
      var s := Walk(stack, cs[0]);
      if s.Some? {
        WalkAllOk(s.value, cs[1..]);
      }
    }
  }

  /** From a base without dots every result is clean: valid, at most 96 bytes, no dots, no leading slash. */
  lemma ResolvedClean(base: seq<byte>, path: seq<byte>)
    requires IsAbsolute(path) || NoDots(Split(base))
    ensures var r := Resolved(base, path);
      r.Some? ==> (StackOk(r.value) && NoDots(r.value) && Split(Join(r.value)) == r.value
                   && (r.value != [] ==> ValidPath(Join(r.value)) && Join(r.value)[0] != SLASH))
  {
    PushAllOk([], Split(base));
    var start := if IsAbsolute(path) then Some([]) else PushAll([], Split(base));
    if start.Some? {
      assert [] + Split(base) == Split(base);
      WalkAllOk(start.value, Split(if IsAbsolute(path) then path[1..] else path));
      var r := Resolved(base, path);
      if r.Some? {
        SplitJoin(r.value, []);
        assert Join(r.value) + [] == Join(r.value) && r.value + [] == r.value;
        if r.value != [] {
          JoinIsPath(r.value);
        }
      }
    }
  }

  /** Walking clean components that fit is pushing them. */
  lemma {:induction false} WalkClean(stack: seq<Component>, cs: seq<Component>)
    requires StackOk(stack + cs) && NoDots(cs)
    ensures WalkAll(stack, cs) == Some(stack + cs)
    decreases |cs|
  {
    hide StackOk, ValidComponent, Join;
    if cs == [] {
      assert stack + cs == stack;
    } else {
      FirstFits(stack, cs);
      WalkClean(stack + [cs[0]], cs[1..]);
    }
  }

  lemma FirstFits(stack: seq<Component>, cs: seq<Component>)
    requires StackOk(stack + cs) && cs != []
    ensures stack + [cs[0]] + cs[1..] == stack + cs
    ensures ValidComponent(cs[0]) && |Join(stack + [cs[0]])| <= NAME_MAX
  {
    assert stack + [cs[0]] + cs[1..] == stack + cs;
    JoinGrows(stack + [cs[0]], cs[1..]);
    assert ValidComponent((stack + cs)[|stack|]);
  }

  lemma {:induction false} JoinGrows(stack: seq<Component>, cs: seq<Component>)
    ensures |Join(stack)| <= |Join(stack + cs)|
    decreases |cs|
  {
    if cs == [] {
      assert stack + cs == stack;
    } else {
      var n := |cs| - 1;
      JoinGrows(stack, cs[..n]);
      assert stack + cs == (stack + cs[..n]) + [cs[n]];
      JoinLast(stack + cs[..n], cs[n]);
    }
  }

  /** Resolving a result again, from the root, changes nothing. */
  lemma Idempotent(base: seq<byte>, path: seq<byte>)
    requires (IsAbsolute(path) || NoDots(Split(base))) && Resolved(base, path).Some? && Resolved(base, path).value != []
    ensures Resolved([], Join(Resolved(base, path).value)) == Resolved(base, path)
  {
    ResolvedClean(base, path);
    var stack := Resolved(base, path).value;
    assert [] + stack == stack;
    WalkClean([], stack);
  }

  // ---- What `.` and `..` mean ----

  /** The component cannot follow where the path leads without going over 96 bytes. */
  ghost predicate TooLong(base: seq<byte>, path: seq<byte>, c: Component) {
    Resolved(base, path).Some? && |Join(Resolved(base, path).value + [c])| > NAME_MAX
  }

  lemma {:induction false} WalkOn(stack: seq<Component>, a: seq<Component>, b: seq<Component>)
    ensures var s := WalkAll(stack, a); WalkAll(stack, a + b) == if s.None? then None else WalkAll(s.value, b)
    decreases |a|
  {
    if a == [] {
      assert a + b == b;
    } else {
      assert (a + b)[1..] == a[1..] + b;
      if Walk(stack, a[0]).Some? {
        WalkOn(Walk(stack, a[0]).value, a[1..], b);
      }
    }
  }

  lemma {:induction false} SplitAtSlash(a: seq<byte>, b: seq<byte>)
    ensures Split(a + [SLASH] + b) == Split(a) + Split(b)
    decreases |a|
  {
    var all := a + [SLASH] + b;
    if a == [] {
      assert all == [SLASH] + b;
      SplitSlash(b);
    } else if a[0] == SLASH {
      assert all[1..] == a[1..] + [SLASH] + b;
      SplitAtSlash(a[1..], b);
    } else {
      var n := WordEnd(a, 0);
      assert forall k :: 0 <= k < n ==> all[k] == a[k];
      WordEndAt(all, 0, n);
      assert all[..n] == a[..n] && all[n..] == a[n..] + [SLASH] + b;
      SplitAtSlash(a[n..], b);
    }
  }

  /** What follows a slash is walked from where the part before it leads. */
  lemma ResolvedOn(base: seq<byte>, p: seq<byte>, q: seq<byte>)
    requires p != []
    ensures var s := Resolved(base, p);
      Resolved(base, p + [SLASH] + q) == if s.None? then None else WalkAll(s.value, Split(q))
  {
    var all := p + [SLASH] + q;
    var start := if IsAbsolute(p) then Some([]) else PushAll([], Split(base));
    if start.Some? {
      if IsAbsolute(p) {
        assert all[1..] == p[1..] + [SLASH] + q;
        SplitAtSlash(p[1..], q);
        WalkOn(start.value, Split(p[1..]), Split(q));
      } else {
        SplitAtSlash(p, q);
        WalkOn(start.value, Split(p), Split(q));
      }
    }
  }

  lemma OneWord(c: Component)
    requires ValidComponent(c)
    ensures Split(c) == [c]
  {
    assert c + [] == c;
    SplitWord(c, []);
  }

  lemma DotsAreWords()
    ensures ValidComponent(HERE) && ValidComponent(UP) && Split(HERE) == [HERE] && Split(UP) == [UP]
  {
    OneWord(HERE);
    OneWord(UP);
  }

  /** Going into a directory and out of it again leads nowhere else, unless it was too long a way. */
  lemma UpCancels(base: seq<byte>, p: seq<byte>, c: Component, q: seq<byte>)
    requires p != [] && ValidComponent(c) && c != HERE && c != UP
    ensures Resolved(base, p + [SLASH] + c + [SLASH] + UP + [SLASH] + q) ==
            if TooLong(base, p, c) then None else Resolved(base, p + [SLASH] + q)
  {
    DotsAreWords();
    OneWord(c);
    var up := c + [SLASH] + UP;
    assert p + [SLASH] + c + [SLASH] + UP + [SLASH] + q == p + [SLASH] + (up + [SLASH] + q);
    ResolvedOn(base, p, up + [SLASH] + q);
    ResolvedOn(base, p, q);
    SplitAtSlash(up, q);
    SplitAtSlash(c, UP);
    if Resolved(base, p).Some? {
      InAndOut(Resolved(base, p).value, c);
      WalkOn(Resolved(base, p).value, [c, UP], Split(q));
    }
  }

  lemma InAndOut(stack: seq<Component>, c: Component)
    requires ValidComponent(c) && c != HERE && c != UP
    ensures WalkAll(stack, [c, UP]) == if |Join(stack + [c])| > NAME_MAX then None else Some(stack)
  {
    assert [c, UP][1..] == [UP];
    WalkUp(stack + [c]);
    assert (stack + [c])[..|stack|] == stack;
  }

  /** A single dot leads nowhere else either. */
  lemma HereCancels(base: seq<byte>, p: seq<byte>, q: seq<byte>)
    requires p != []
    ensures Resolved(base, p + [SLASH] + HERE + [SLASH] + q) == Resolved(base, p + [SLASH] + q)
  {
    DotsAreWords();
    assert p + [SLASH] + HERE + [SLASH] + q == p + [SLASH] + (HERE + [SLASH] + q);
    ResolvedOn(base, p, HERE + [SLASH] + q);
    ResolvedOn(base, p, q);
    SplitAtSlash(HERE, q);
    if Resolved(base, p).Some? {
      assert [HERE][1..] == [];
      WalkOn(Resolved(base, p).value, [HERE], Split(q));
    }
  }

  lemma {:induction false} PushAllFits(stack: seq<Component>, cs: seq<Component>)
    requires StackOk(stack + cs)
    ensures PushAll(stack, cs) == Some(stack + cs)
    decreases |cs|
  {
    hide StackOk, ValidComponent, Join;
    if cs == [] {
      assert stack + cs == stack;
    } else {
      FirstFits(stack, cs);
      PushAllFits(stack + [cs[0]], cs[1..]);
    }
  }

  lemma ParentOfJoined(front: seq<byte>, last: Component)
    requires ValidComponent(last)
    ensures Parent(front + [SLASH] + last) == Some(front)
  {
    var name := front + [SLASH] + last;
    assert !NameByte(SLASH);
    forall k | |front| < k < |name| ensures name[k] != SLASH {
      assert name[k] == last[k - |front| - 1];
    }
    assert name[|front|] == SLASH;
    assert name[..|front|] == front;
  }

  /** A relative name is looked up below the base, */
  lemma RelativeName(stack: seq<Component>, c: Component)
    requires StackOk(stack) && StackOk(stack + [c]) && ValidComponent(c) && c != HERE && c != UP
    ensures Resolved(Join(stack), c) == Some(stack + [c])
  {
    hide Join, Split, WalkAll, PushAll, StackOk;
    OneWord(c);
    SplitClean(stack);
    WalkClean(stack, [c]);
    assert !NameByte(SLASH);
  }

  /** one with a slash in front at the top; */
  lemma AbsoluteName(base: seq<byte>, c: Component)
    requires StackOk([c]) && ValidComponent(c) && c != HERE && c != UP
    ensures Resolved(base, [SLASH] + c) == Some([c])
  {
    hide Join, Split, WalkAll, PushAll, StackOk;
    OneWord(c);
    assert ([SLASH] + c)[1..] == c && [] + [c] == [c];
    WalkClean([], [c]);
  }

  /** two dots at the top stay there. */
  lemma UpAtTop(base: seq<byte>)
    ensures Resolved(base, [SLASH] + UP) == Some([])
  {
    DotsAreWords();
    assert ([SLASH] + UP)[1..] == UP;
    WalkUp([]);
  }

  lemma WalkUp(stack: seq<Component>)
    ensures WalkAll(stack, [UP]) == Some(Pop(stack))
  {
    assert UP != HERE && [UP][1..] == [];
    assert WalkAll(stack, [UP]) == WalkAll(Pop(stack), [UP][1..]);
  }

  /** Two dots against a clean base lead to its parent; from a name in the top directory, and from the top itself, to
      the top. */
  lemma UpIsParent(stack: seq<Component>)
    requires StackOk(stack) && NoDots(stack)
    ensures var r := Resolved(Join(stack), UP);
      r.Some? && (r.value == [] <==> |stack| <= 1)
      && (|stack| > 1 ==> Parent(Join(stack)) == Some(Join(r.value)))
  {
    hide Join, Split, Parent, WalkAll, PushAll, NoDots;
    DotsAreWords();
    SplitClean(stack);
    WalkUp(stack);
    assert !IsAbsolute(UP);
    if |stack| > 1 {
      ParentOfStack(stack);
    }
  }

  lemma SplitClean(stack: seq<Component>)
    requires StackOk(stack)
    ensures Split(Join(stack)) == stack && PushAll([], stack) == Some(stack)
  {
    assert Join(stack) + [] == Join(stack) && stack + [] == stack && [] + stack == stack;
    SplitJoin(stack, []);
    PushAllFits([], stack);
  }

  lemma ParentOfStack(stack: seq<Component>)
    requires |stack| > 1 && ValidComponent(stack[|stack| - 1])
    ensures Parent(Join(stack)) == Some(Join(Pop(stack)))
  {
    hide Join, Parent, ValidComponent;
    var front, last := Pop(stack), stack[|stack| - 1];
    assert front + [last] == stack;
    JoinLast(front, last);
    ParentOfJoined(Join(front), last);
  }

  // ---- The buffer ----

  /** The buffer holds a joined stack, zeros after it. */
  predicate Holds(output: seq<byte>, len: nat, stack: seq<Component>) {
    && |output| == NAME_MAX && StackOk(stack) && len == |Join(stack)| && output[..len] == Join(stack)
    && forall k :: len <= k < NAME_MAX ==> output[k] == 0
  }

  method CheckComponent(c: Component) returns (ok: bool)
    ensures ok <==> ValidComponent(c)
  {
    for k := 0 to |c|
      invariant forall j :: 0 <= j < k ==> NameByte(c[j])
    {
      if !NameByte(c[k]) {
        return false;
      }
    }
    return |c| > 0;
  }

  lemma OnePushed(stack: seq<Component>, c: Component)
    requires StackOk(stack) && ValidComponent(c)
    ensures stack == [] <==> Join(stack) == []
    ensures |c| > 0 && (|Join(stack + [c])| <= NAME_MAX ==> StackOk(stack + [c]))
  {
    JoinValid(stack);
  }

  /** pfs_push_component. */
  method PushComponent(output: array<byte>, len: nat, c: Component, ghost stack: seq<Component>)
    returns (r: Option<nat>)
    requires Holds(output[..], len, stack)
    modifies output
    ensures r.Some? <==> Push(stack, c).Some?
    ensures r.Some? ==> Holds(output[..], r.value, stack + [c])
  {
    hide Join, StackOk, ValidComponent;
    var valid := CheckComponent(c);
    if !valid {
      return None;
    }
    JoinLast(stack, c);
    OnePushed(stack, c);
    var at := len;
    if at != 0 {
      if at >= NAME_MAX {
        return None;
      }
      output[at] := SLASH;
      at := at + 1;
    }
    if at + |c| > NAME_MAX {
      return None;
    }
    ghost var before := output[..];
    forall k | 0 <= k < |c| {
      output[at + k] := c[k];
    }
    assert output[..at] == before[..at];
    assert output[at..at + |c|] == c;
    assert output[..at + |c|] == output[..at] + output[at..at + |c|];
    assert before[..at] == if len == 0 then [] else Join(stack) + [SLASH];
    return Some(at + |c|);
  }

  /** The last slash of a joined stack is where popping leads; without one there is at most one component. */
  lemma LastSlashPops(stack: seq<Component>, index: nat)
    requires StackOk(stack) && index <= |Join(stack)|
    requires forall k :: index < k < |Join(stack)| ==> Join(stack)[k] != SLASH
    ensures index < |Join(stack)| && Join(stack)[index] == SLASH ==> Join(stack)[..index] == Join(Pop(stack))
    ensures index == 0 && (Join(stack) == [] || Join(stack)[0] != SLASH) ==> Pop(stack) == []
  {
    if stack != [] {
      var last := stack[|stack| - 1];
      assert stack == Pop(stack) + [last];
      JoinLast(Pop(stack), last);
      assert !NameByte(SLASH);
      forall k | 0 <= k < |last| ensures last[k] != SLASH {
        assert NameByte(last[k]);
      }
      if Pop(stack) != [] {
        assert Join(stack)[|Join(Pop(stack))|] == SLASH;
        forall k | |Join(Pop(stack))| < k < |Join(stack)| ensures Join(stack)[k] != SLASH {
          assert Join(stack)[k] == last[k - |Join(Pop(stack))| - 1];
        }
      }
    }
  }

  /** pfs_pop_component: back to the last slash, zeroing. */
  method PopComponent(output: array<byte>, len: nat, ghost stack: seq<Component>) returns (r: nat)
    requires Holds(output[..], len, stack)
    modifies output
    ensures Holds(output[..], r, Pop(stack))
  {
    PopOk(stack);
    ghost var all := Join(stack);
    var index := len;
    while index > 0
      invariant 0 <= index <= len && output[..] == old(output[..]) && output[..len] == all
      invariant forall k :: index <= k < len ==> all[k] != SLASH
    {
      index := index - 1;
      assert output[index] == all[index];
      if output[index] == SLASH {
        LastSlashPops(stack, index);
        Erase(output, index, len);
        assert output[..index] == all[..index];
        return index;
      }
    }
    LastSlashPops(stack, 0);
    Erase(output, 0, len);
    return 0;
  }

  /** What the buffer holds fixes all its bytes. */
  lemma HoldsOne(a: seq<byte>, len: nat, b: seq<byte>, len': nat, stack: seq<Component>)
    requires Holds(a, len, stack) && Holds(b, len', stack)
    ensures a == b && len == len'
  {
    assert a == a[..len] + a[len..] && b == b[..len] + b[len..];
    assert a[len..] == b[len..];
  }

  /** Pushing a component and popping it again leaves the buffer and its length as they were, byte for byte. */
  method PopUndoesPush(output: array<byte>, len: nat, c: Component, ghost stack: seq<Component>)
    returns (r: Option<nat>)
    requires Holds(output[..], len, stack)
    modifies output
    ensures r.Some? <==> Push(stack, c).Some?
    ensures r.Some? ==> r.value == len && output[..] == old(output[..])
  {
    ghost var before := output[..];
    var pushed := PushComponent(output, len, c, stack);
    if pushed.None? {
      return None;
    }
    var left := PopComponent(output, pushed.value, stack + [c]);
    assert Pop(stack + [c]) == stack;
    HoldsOne(before, len, output[..], left, stack);
    return Some(left);
  }

  method Erase(output: array<byte>, from: nat, to: nat)
    requires from <= to <= output.Length
    modifies output
    ensures forall k :: 0 <= k < output.Length ==> output[k] == if from <= k < to then 0 else old(output[k])
  {
    forall k | from <= k < to {
      output[k] := 0;
    }
  }

  // ---- The iterator and the loop ----

  /** Skipping slashes does not change what is left to split. */
  lemma SkipSlash(b: seq<byte>, i: nat)
    requires i < |b| && b[i] == SLASH
    ensures Split(b[i..]) == Split(b[i + 1..])
  {
    assert b[i..][1..] == b[i + 1..];
  }

  lemma TakeWord(b: seq<byte>, i: nat, n: nat)
    requires i < n <= |b| && (forall k :: i <= k < n ==> b[k] != SLASH) && (n < |b| ==> b[n] == SLASH)
    ensures Split(b[i..]) == [b[i..n]] + Split(b[n..])
  {
    WordEndAt(b[i..], 0, n - i);
    assert b[i..][..n - i] == b[i..n] && b[i..][n - i..] == b[n..];
  }

  /** PfsComponents::next. */
  method NextComponent(b: seq<byte>, from: nat) returns (c: Option<Component>, index: nat)
    requires from <= |b|
    ensures from <= index <= |b|
    ensures c.None? ==> Split(b[from..]) == []
    ensures c.Some? ==> from < index && Split(b[from..]) == [c.value] + Split(b[index..])
  {
    index := from;
    while index < |b| && b[index] == SLASH
      invariant from <= index <= |b| && Split(b[from..]) == Split(b[index..])
    {
      SkipSlash(b, index);
      index := index + 1;
    }
    if index >= |b| {
      return None, index;
    }
    var start := index;
    while index < |b| && b[index] != SLASH
      invariant start <= index <= |b| && forall k :: start <= k < index ==> b[k] != SLASH
    {
      index := index + 1;
    }
    TakeWord(b, start, index);
    return Some(b[start..index]), index;
  }

  /** The first loop: the base's components are pushed as they are. */
  method PushBase(base: seq<byte>, output: array<byte>) returns (r: Option<nat>, ghost stack: seq<Component>)
    requires Holds(output[..], 0, [])
    modifies output
    ensures r.Some? <==> PushAll([], Split(base)).Some?
    ensures r.Some? ==> PushAll([], Split(base)) == Some(stack) && Holds(output[..], r.value, stack)
  {
    var len, index := 0, 0;
    stack := [];
    assert base[0..] == base;
    while true
      invariant index <= |base| && Holds(output[..], len, stack)
      invariant PushAll([], Split(base)) == PushAll(stack, Split(base[index..]))
      decreases |base| - index
    {
      var c, next := NextComponent(base, index);
      if c.None? {
        return Some(len), stack;
      }
      assert Split(base[index..])[1..] == Split(base[next..]);
      var pushed := PushComponent(output, len, c.value, stack);
      if pushed.None? {
        return None, stack;
      }
      len, index, stack := pushed.value, next, stack + [c.value];
    }
  }

  /** The second loop. */
  method WalkPath(path: seq<byte>, output: array<byte>, from: nat, ghost stack0: seq<Component>)
    returns (r: Option<nat>, ghost stack: seq<Component>)
    requires Holds(output[..], from, stack0)
    modifies output
    ensures r.Some? <==> WalkAll(stack0, Split(path)).Some?
    ensures r.Some? ==> WalkAll(stack0, Split(path)) == Some(stack) && Holds(output[..], r.value, stack)
  {
    var len, index := from, 0;
    stack := stack0;
    assert path[0..] == path;
    while true
      invariant index <= |path| && Holds(output[..], len, stack)
      invariant WalkAll(stack0, Split(path)) == WalkAll(stack, Split(path[index..]))
      decreases |path| - index
    {
      var c, next := NextComponent(path, index);
      if c.None? {
        return Some(len), stack;
      }
      assert Split(path[index..])[1..] == Split(path[next..]);
      index := next;
      if c.value == HERE {
        continue;
      }
      if c.value == UP {
        len := PopComponent(output, len, stack);
        stack := Pop(stack);
        continue;
      }
      var pushed := PushComponent(output, len, c.value, stack);
      if pushed.None? {
        return None, stack;
      }
      len, stack := pushed.value, stack + [c.value];
    }
  }

  /** normalize_pfs_path: the joined stack, or None for an invalid or overlong step and for the root itself. */
  method Normalize(base: seq<byte>, path: seq<byte>, output: array<byte>) returns (r: Option<nat>)
    requires output.Length == NAME_MAX && forall k :: 0 <= k < NAME_MAX ==> output[k] == 0
    modifies output
    ensures r.None? <==> Resolved(base, path).None? || Resolved(base, path).value == []
    ensures r.Some? ==> r.value <= NAME_MAX && output[..r.value] == Join(Resolved(base, path).value)
    ensures r.Some? ==> forall k :: r.value <= k < NAME_MAX ==> output[k] == 0
  {
    var len: nat := 0;
    ghost var stack: seq<Component> := [];
    if !IsAbsolute(path) {
      var pushed;
      pushed, stack := PushBase(base, output);
      if pushed.None? {
        return None;
      }
      len := pushed.value;
    }
    var relative := if IsAbsolute(path) then path[1..] else path;
    var walked, top := WalkPath(relative, output, len, stack);
    if walked.None? {
      return None;
    }
    if top != [] {
      JoinIsPath(top);
    }
    var valid := CheckPath(output[..walked.value]);
    if walked.value == 0 || !valid {
      return None;
    }
    return walked;
  }
}
