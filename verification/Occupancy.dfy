/** Who has which container open: the sessions' side and the containers' side of one relation.
    objects and open are the sessions' player objects and open containers, holders the containers'
    holding objects; -1 stands for none in each. */
module Occupancy {

  datatype State = State(objects: map<int, int>, open: map<int, int>, holders: map<int, int>)

  ghost predicate Opened(s: State, i: int, c: int) {
    i in s.open && i in s.objects && c != -1 && s.open[i] == c
  }

  ghost predicate HasOpener(s: State, c: int)
    requires c in s.holders
  {
    exists i :: Opened(s, i, c) && s.objects[i] == s.holders[c]
  }

  /** Object ids are not shared, an open container is held by its session's object, and a held container is open. */
  ghost predicate Matched(s: State) {
    && s.objects.Keys == s.open.Keys
    && (forall i, j | i in s.objects && j in s.objects && i != j && s.objects[i] != -1 :: s.objects[i] != s.objects[j])
    && -1 !in s.holders
    && (forall i, c | Opened(s, i, c) :: c in s.holders && s.objects[i] != -1 && s.holders[c] == s.objects[i])
    && (forall c <- s.holders | s.holders[c] != -1 :: HasOpener(s, c))
  }

  function Release(s: State, i: int): State
    requires i in s.open && i in s.objects
  {
    var c := s.open[i];
    State(s.objects, s.open[i := -1],
          if c == -1 || c !in s.holders || s.holders[c] != s.objects[i] then s.holders else s.holders[c := -1])
  }

  lemma ReleaseKeeps(s: State, i: int)
    requires Matched(s) && i in s.open
    ensures Matched(Release(s, i))
  {
    var s' := Release(s, i);
    forall j, c | Opened(s', j, c) ensures c in s'.holders && s'.objects[j] != -1 && s'.holders[c] == s'.objects[j] {
      assert Opened(s, j, c);
      if s.open[i] != -1 { assert Opened(s, i, s.open[i]); }
    }
    forall c <- s'.holders | s'.holders[c] != -1 ensures HasOpener(s', c) {
      assert HasOpener(s, c);
      var j :| Opened(s, j, c) && s.objects[j] == s.holders[c];
      assert Opened(s', j, c);
    }
  }

  /** The session of object holder loses its open container; the container keeps naming it for now. */
  function Evict(s: State, holder: int): State {
    s.(open := map i | i in s.open ::
        if holder != -1 && i in s.objects && s.objects[i] == holder then -1 else s.open[i])
  }

  function Take(s: State, i: int, c: int): State
    requires i in s.open && i in s.objects && c in s.holders
  {
    var me := s.objects[i];
    var r := Release(if s.holders[c] != me then Evict(s, s.holders[c]) else s, i);
    State(r.objects, r.open[i := c], r.holders[c := me])
  }

  /** Opening, also by taking a container over from a holder that walked off. */
  lemma TakeKeeps(s: State, i: int, c: int)
    requires Matched(s) && i in s.open && c in s.holders && s.objects[i] != -1
    ensures Matched(Take(s, i, c))
    ensures Opened(Take(s, i, c), i, c)
  {
    var s' := Take(s, i, c);
    if s.open[i] != -1 { assert Opened(s, i, s.open[i]); }
    if s.holders[c] != -1 { assert HasOpener(s, c); }
    forall j, k | Opened(s', j, k) && j != i ensures k != c && Opened(s, j, k) {
      assert Opened(s, j, k);
    }
    forall k <- s'.holders | s'.holders[k] != -1 ensures HasOpener(s', k) {
      if k == c {
        assert Opened(s', i, c);
      } else {
        assert HasOpener(s, k);
        var j :| Opened(s, j, k) && s.objects[j] == s.holders[k];
        assert Opened(s', j, k);
      }
    }
  }

  /** The sessions in gone lose their objects and their containers. */
  function Leave(s: State, gone: set<int>): State {
    State(map i | i in s.objects :: if i in gone then -1 else s.objects[i],
          map i | i in s.open :: if i in gone then -1 else s.open[i],
          map c | c in s.holders :: if LeavesFree(s, gone, c) then -1 else s.holders[c])
  }

  predicate LeavesFree(s: State, gone: set<int>, c: int) {
    exists i <- gone :: i in s.open && i in s.objects && s.open[i] == c
      && c != -1 && c in s.holders && s.holders[c] == s.objects[i]
  }

  lemma LeaveKeeps(s: State, gone: set<int>)
    requires Matched(s)
    ensures Matched(Leave(s, gone))
  {
    var s' := Leave(s, gone);
    forall j, c | Opened(s', j, c) ensures c in s'.holders && s'.objects[j] != -1 && s'.holders[c] == s'.objects[j] {
      assert Opened(s, j, c);
    }
    forall c <- s'.holders | s'.holders[c] != -1 ensures HasOpener(s', c) {
      assert HasOpener(s, c);
      var j :| Opened(s, j, c) && s.objects[j] == s.holders[c];
      assert Opened(s', j, c);
    }
  }

  /** Spawning gives session i a new object. */
  lemma SpawnIff(s: State, i: int, body: int)
    requires Matched(s) && i in s.objects && body != -1
    requires (forall j <- s.objects :: s.objects[j] < body) && (forall c <- s.holders :: s.holders[c] < body)
    ensures Matched(s.(objects := s.objects[i := body])) <==> s.open[i] == -1
  {
    var s' := s.(objects := s.objects[i := body]);
    if s.open[i] != -1 {
      assert Opened(s', i, s.open[i]) && Opened(s, i, s.open[i]);
    } else {
      forall j, c ensures Opened(s', j, c) <==> Opened(s, j, c) {}
      forall c <- s'.holders | s'.holders[c] != -1 ensures HasOpener(s', c) {
        assert HasOpener(s, c);
        var j :| Opened(s, j, c) && s.objects[j] == s.holders[c];
        assert Opened(s', j, c);
      }
    }
  }

  /** A new container, held by nobody. */
  lemma FreshContainerKeeps(s: State, c: int)
    requires Matched(s) && c != -1 && c !in s.holders
    ensures Matched(s.(holders := s.holders[c := -1]))
  {
    var s' := s.(holders := s.holders[c := -1]);
    forall j, k ensures Opened(s', j, k) <==> Opened(s, j, k) {}
    forall k <- s'.holders | s'.holders[k] != -1 ensures HasOpener(s', k) {
      assert HasOpener(s, k);
      var j :| Opened(s, j, k) && s.objects[j] == s.holders[k];
      assert Opened(s', j, k);
    }
  }

  /** Two sessions never have the same container open. */
  lemma Exclusive(s: State, i: int, j: int, c: int)
    requires Matched(s) && Opened(s, i, c) && Opened(s, j, c)
    ensures i == j
  {}

  lemma OpenIffHeld(s: State, i: int, c: int)
    requires Matched(s) && i in s.open && c in s.holders
    ensures s.open[i] == c <==> s.objects[i] != -1 && s.holders[c] == s.objects[i]
  {
    if s.open[i] == c { assert Opened(s, i, c); }
    if s.holders[c] != -1 { assert HasOpener(s, c); }
  }
}
