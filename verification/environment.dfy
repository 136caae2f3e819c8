/** The interpreter's environment: a stack of frames, each mapping a variable name to
    its value as text. Entering a block pushes a copy of the top frame; leaving it
    merges the top frame into the one below and pops it; bindings write the top frame. */
module Environment {

  type Frame = map<string, string>

  function Top(env: seq<Frame>): Frame
    requires |env| >= 1
  {
    env[|env| - 1]
  }

  /** The frames under the top one. */
  function Below(env: seq<Frame>): seq<Frame>
    requires |env| >= 1
  {
    env[..|env| - 1]
  }

  /** Replace the top frame, keeping every frame under it. */
  function SetTop(env: seq<Frame>, f: Frame): (r: seq<Frame>)
    requires |env| >= 1
    ensures |r| == |env|
    ensures Top(r) == f
    ensures Below(r) == Below(env)
  {
    Below(env) + [f]
  }

  /** `add_new_env`: push a clone of the current top frame. */
  function PushScope(env: seq<Frame>): (r: seq<Frame>)
    requires |env| >= 1
    ensures |r| == |env| + 1
    ensures Top(r) == Top(env)
    ensures Below(r) == env
  {
    env + [Top(env)]
  }

  /** The entries `update_env` copies down: those of the child whose key the parent
      lacks or maps to a different value. */
  function Updates(parent: Frame, child: Frame): Frame {
    map k | k in child && (k !in parent || parent[k] != child[k]) :: child[k]
  }

  /** `update_env`: with at least two frames, extend the frame under the top with the
      differing entries of the top frame; otherwise do nothing. Every key of the top
      frame ends up in the frame below with the top frame's value, and the frame below
      keeps its own value only for keys the top frame lacks. */
  function MergeTop(env: seq<Frame>): (r: seq<Frame>)
    ensures |r| == |env|
    ensures |env| < 2 ==> r == env
    ensures |env| >= 2 ==> r[|env| - 2] == env[|env| - 2] + Top(env)
    ensures forall i :: 0 <= i < |env| && i != |env| - 2 ==> r[i] == env[i]
  {
    if |env| < 2 then env
    else
      var parent := env[|env| - 2];
      var child := Top(env);
      MergeUpdatesIsOverride(parent, child);
      env[|env| - 2 := parent + Updates(parent, child)]
  }

  /** Extending the parent with only the differing entries is the same as overriding it
      with the whole child. */
  lemma MergeUpdatesIsOverride(parent: Frame, child: Frame)
    ensures parent + Updates(parent, child) == parent + child
  {
    var u := parent + Updates(parent, child);
    assert u.Keys == (parent + child).Keys;
    forall k | k in u
      ensures u[k] == (parent + child)[k]
    {
    }
  }

  /** `rm_now_env`: merge the top frame down, then pop it (popping an empty stack does
      nothing). */
  function PopScope(env: seq<Frame>): (r: seq<Frame>)
    ensures |env| >= 1 ==> |r| == |env| - 1
    ensures |env| >= 2 ==> Top(r) == env[|env| - 2] + Top(env)
    ensures |env| >= 2 ==> Below(r) == env[..|env| - 2]
  {
    var merged := MergeTop(env);
    if |merged| == 0 then merged else merged[..|merged| - 1]
  }

  /** `add_new_var` and the frame insert of an assignment: bind `name` in the top frame. */
  function Bind(env: seq<Frame>, name: string, value: string): (r: seq<Frame>)
    requires |env| >= 1
    ensures |r| == |env|
    ensures Below(r) == Below(env)
    ensures name in Top(r) && Top(r)[name] == value
    ensures forall k :: k != name ==> (k in Top(r) <==> k in Top(env))
    ensures forall k :: k != name && k in Top(env) ==> Top(r)[k] == Top(env)[k]
  {
    SetTop(env, Top(env)[name := value])
  }

  /** Entering and immediately leaving a scope gives back the stack unchanged. */
  lemma PushPopIdentity(env: seq<Frame>)
    requires |env| >= 1
    ensures PopScope(PushScope(env)) == env
  {
    var t := Top(env);
    assert t + t == t;
    assert PopScope(PushScope(env)) == Below(env) + [t];
  }

  /** When the top frame has every key of the frame below it (which is how a block's
      frame always ends, since frames only grow), leaving the scope replaces the frame
      below by the top frame outright: every name bound inside the block, old or new,
      survives the block. */
  lemma PopKeepsInnerFrame(env: seq<Frame>)
    requires |env| >= 2
    requires env[|env| - 2].Keys <= Top(env).Keys
    ensures PopScope(env) == env[..|env| - 2] + [Top(env)]
  {
    var parent := env[|env| - 2];
    var child := Top(env);
    assert parent + child == child;
    var r := PopScope(env);
    assert r == Below(r) + [Top(r)];
  }

  /** Leaving a scope that was pushed over `env` and has since become `inner` merges the
      scope's frame into the old top frame. */
  lemma PopAfterPush(env: seq<Frame>, inner: seq<Frame>)
    requires |env| >= 1
    requires |inner| == |env| + 1 && Below(inner) == env
    ensures |PopScope(inner)| == |env|
    ensures Below(PopScope(inner)) == Below(env)
    ensures Top(PopScope(inner)) == Top(env) + Top(inner)
  {
    assert inner[|inner| - 2] == Top(env);
    assert inner[..|inner| - 2] == Below(env);
  }

  /** Leaving a scope pushed over `env` gives exactly `outer` when the scope ended with
      the same top frame as `outer`, `outer` differs from `env` only in its top frame,
      and that top frame has every name `env`'s top frame had. */
  lemma PopOverPushed(env: seq<Frame>, inner: seq<Frame>, outer: seq<Frame>)
    requires |env| >= 1
    requires |inner| == |env| + 1 && Below(inner) == env
    requires |outer| == |env| && Below(outer) == Below(env)
    requires Top(inner) == Top(outer) && Top(env).Keys <= Top(outer).Keys
    ensures PopScope(inner) == outer
  {
    PopAfterPush(env, inner);
    assert Top(env) + Top(outer) == Top(outer);
    var r := PopScope(inner);
    assert r == Below(r) + [Top(r)];
    assert outer == Below(outer) + [Top(outer)];
  }
}
