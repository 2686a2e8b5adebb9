/**
 The two processes of a copy, run on what the other writes.
 */
module RcpTransfer {
  import opened Wrappers
  import opened Octets
  import opened Rcp
  import opened RcpTalk
  import opened RcpAnswers
  import opened RcpSession
  import opened RcpTree
  import opened RcpLoops
  import opened RcpProcess

  /** A place in a directory that exists, with nothing in the way of the tree. */
  ghost predicate Open(n: Node, targ: Path, fs: Fs) {
    n.Bad? || var p := Target(targ, IsDir(fs, targ), n.name); Accepts(fs, n, p) && p != [] && IsDir(fs, Parent(p))
  }

  /** The sending process, given the answers it waits for. */
  method RunSender(env: Env, n: Node, targ: Path, fs: Fs, cnt: nat, takes: nat -> nat, answers: seq<Byte>)
    returns (sender: Peer)
    requires Sendable(n) && LegalFaults(env) && cnt > 0 && Reads(n, cnt) && answers == Session(env, n, targ, fs).r
    ensures sender.alive && sender.inp == [] && sender.out == Session(env, n, targ, fs).w
  {
    ghost var t := Session(env, n, targ, fs);
    RcpLockStep(env, n, targ, fs);
    sender := new Peer(cnt, takes, answers, map[]);
    var ok := sender.GetResponse();
    if ok {
      sender.SendNode(n, env.pflag);
    }
    assert sender.IoView() == Io([], t.a, true);
  }

  /**
   A sender and a receiver with buffers of any size and reads of any length:
   both run to their ends; the receiver's answers to what the sender writes are
   the answers the sender was given, unless it gives one too many; and a clean
   tree is merged with what is there.
   */
  method CopyTree(env: Env, n: Node, targ: Path, fs: Fs, cnt: nat, takes: nat -> nat, answers: seq<Byte>)
    returns (sender: Peer, receiver: Peer)
    requires Sendable(n) && LegalFaults(env) && cnt > 0 && Reads(n, cnt) && Buffered(env)
    requires answers == Session(env, n, targ, fs).r
    ensures sender.alive && receiver.alive && sender.inp == [] && receiver.inp == []
    ensures receiver.out == answers <==> !NodeSpills(env, n, targ, IsDir(fs, targ), fs, 0, None)
    ensures n.File? || n.Dir? ==> Clean(n) && NoFaults(env) && Open(n, targ, fs) ==>
      var p := Target(targ, IsDir(fs, targ), n.name); receiver.fs == Landing(env, fs, p) + Merge(env, n, p, fs)
  {
    ghost var t := Session(env, n, targ, fs);
    RcpLockStep(env, n, targ, fs);
    RcpAnswersMatchIff(env, n, targ, fs);
    sender := RunSender(env, n, targ, fs, cnt, takes, answers);
    receiver := new Peer(cnt, takes, sender.out, fs);
    receiver.RunSink(env, targ);
    assert receiver.View() == St(Io([], t.b, true), t.fs, t.k);
    if (n.File? || n.Dir?) && Clean(n) && NoFaults(env) && Open(n, targ, fs) {
      RcpMergesTree(env, n, targ, fs);
    }
  }
}
