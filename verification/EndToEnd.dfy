/**
 From the bytes of a peer to the files of a torrent: what is downloaded is what is
 saved, and what has been saved when a torrent is completed is right exactly when
 all of its bytes lie in the first file.
 */
module EndToEnd {
  import opened Octets
  import opened Layout
  import opened Save
  import Wire
  import D = Download
  import opened Deliveries
  import Downloaders
  import Scheduler
  import opened SchedulerInvariant
  import opened SchedulerSaves

  /** The digest check accepts the true bytes of piece `k` and nothing else. */
  ghost predicate Identifies(verify: seq<Octet> -> bool, t: Descriptor, truth: Bytes, k: nat)
    requires Fits(t) && |truth| == Total(t.lengths) && k < t.count
  {
    forall c :: verify(c) <==> c == Content(t, truth, k)
  }

  lemma {:induction false} Identified(verify: seq<Octet> -> bool, t: Descriptor, truth: Bytes, k: nat, c: Bytes)
    requires Fits(t) && |truth| == Total(t.lengths) && k < t.count && Identifies(verify, t, truth, k) && verify(c)
    ensures c == Content(t, truth, k)
  {
  }

  /**
   Whatever the peer does, what is downloaded is the true piece. Saved to a
   one-file torrent it is in its place, and pieces that were right stay so; saved
   where it does not fit the file it starts in, it leaves that file too long.
   */
  lemma {:induction false} DownloadedIsSaved(t: Descriptor, truth: Bytes, k: nat, verify: seq<Octet> -> bool,
                                             s: D.State, content: Bytes, disk: seq<Bytes>)
    requires Fits(t) && |truth| == Total(t.lengths) && k < t.count && s.log == [] && SameShape(disk, t.lengths)
    requires Identifies(verify, t, truth, k)
    requires Downloaders.Attempt(t.count, t.pieceLength, Total(t.lengths), k, verify, s).0 == D.Done(content)
    ensures content == Content(t, truth, k) && Named(disk, Pieces(t)[k].subpieces)
    ensures var next := SaveSubpieces(disk, Pieces(t)[k].subpieces, content);
      && (OneFile(t.lengths) ==>
           forall j | 0 <= j < t.count && (j == k || SavedPiece(t, truth, disk, j)) :: SavedPiece(t, truth, next, j))
      && (Overruns(t, Pieces(t)[k], WantAt(t, k)) ==>
           var f := Pieces(t)[k].subpieces[0].file; |next[f]| > t.lengths[f])
  {
    Downloaders.DownloadedExact(t, k, verify, s);
    Identified(verify, t, truth, k, content);
    PieceNamed(t, disk, k);
    if OneFile(t.lengths) {
      SaveOne(t, truth, disk, k);
    }
    if Overruns(t, Pieces(t)[k], WantAt(t, k)) {
      OverrunNow(t, truth, disk, k);
    }
  }

  /** A peer that answers the requests truly, in any order, gets its piece into the file of a one-file torrent. */
  lemma {:induction false} ServedIsSaved(t: Descriptor, truth: Bytes, k: nat, verify: seq<Octet> -> bool, s: D.State,
                                         messages: seq<Wire.Message>, ks: seq<nat>, disk: seq<Bytes>)
    requires Fits(t) && |truth| == Total(t.lengths) && k < t.count && SameShape(disk, t.lengths) && OneFile(t.lengths)
    requires Identifies(verify, t, truth, k)
    requires var p := D.Plan(k, WantAt(t, k));
      && D.Fresh(p, s) && CanSend(p, s)
      && Wire.AllSendable(t.count, messages)
      && (forall i | 0 <= i < |messages| && messages[i].Have? :: 0 <= messages[i].index < |s.have|)
      && s.inbox == FromStream(t.count, Wire.EncodeAll(t.count, messages))
      && D.Honest(p, Content(t, truth, k), BlocksIn(messages), ks) && |BlocksIn(messages)| >= D.BlocksTotal(p)
    ensures D.Run(D.Plan(k, WantAt(t, k)), verify, s).0 == D.Done(Content(t, truth, k))
    ensures SavedPiece(t, truth, SavePiece(t, truth, disk, k), k)
  {
    HonestStream(D.Plan(k, WantAt(t, k)), verify, s, t.count, messages, Content(t, truth, k), ks);
    SaveOne(t, truth, disk, k);
  }

  /**
   In every reachable state, a torrent that was completed has on disk what was
   saved for it, in whatever order and however often workers saved it: its files
   are right exactly when all of its bytes lie in the first one.
   */
  lemma {:induction false} CompletedFiles(s: Scheduler.State, tid: nat, t: Descriptor, truth: Bytes, disk: seq<Bytes>)
    requires Reachable(s) && tid in s.torrents && s.torrents[tid].completions == 1
    requires Fits(t) && t.count == s.torrents[tid].count && |truth| == Total(t.lengths) && SameShape(disk, t.lengths)
    ensures Ordered(t, s.torrents[tid].saved)
    ensures AllSaved(t, truth, SaveOrder(t, truth, disk, s.torrents[tid].saved)) <==> OneFile(t.lengths)
  {
    CompletedIsSaved(s, tid);
    SaveAllExact(t, truth, disk, s.torrents[tid].saved);
  }
}
