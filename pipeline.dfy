/** How the vision server's records meet the two controllers: every record
    the server publishes is one that both controllers can read, and they read
    the same center probability from it. */
module Pipeline {
  import opened Wire
  import opened Frames
  import VisionServer
  import ZoneController
  import ThrottleController

  /** A well-formed record gives the zone controller the three zone
      probabilities and the throttle controller the center probability. */
  lemma WellFormedRecordIsReadable(m: Message)
    requires VisionServer.WellFormed(m)
    ensures var e := m[PROBS].entries;
      ZoneController.ReadZones(m) == Some(ZoneController.ZoneProbs(e[LEFT], e[CENTER], e[RIGHT]))
    ensures ThrottleController.ReadTarget(m) == Some(m[PROBS].entries[CENTER])
  {
  }

  /** Every record published while serving, from a camera or a file, is
      well formed. */
  lemma ServedRecordsAreWellFormed(cfg: VisionServer.Config, src: VisionServer.Source, frames: seq<Image>, n: nat, i: nat)
    requires i < |VisionServer.Run(cfg, src, frames, VisionServer.Start(cfg), n).sent|
    ensures VisionServer.WellFormed(VisionServer.Run(cfg, src, frames, VisionServer.Start(cfg), n).sent[i])
  {
    var sent := VisionServer.Run(cfg, src, frames, VisionServer.Start(cfg), n).sent;
    VisionServer.RunKeepsInv(cfg, src, frames, n);
    assert sent[i] == VisionServer.Expected(cfg, frames, i);
    VisionServer.PublishIsWellFormed(cfg, frames[i % |frames|], cfg.clock(i), cfg.clock(i + 1));
  }

  /** A subscriber may see only some of the records, in any order: as long
      as each message it receives is one the server published, neither
      controller meets a malformed message, and both handle all of them. */
  lemma ControllersHandleServedRecords(cfg: VisionServer.Config, src: VisionServer.Source, frames: seq<Image>, n: nat,
                                       inbox: seq<Message>)
    requires forall i :: 0 <= i < |inbox| ==> inbox[i] in VisionServer.Run(cfg, src, frames, VisionServer.Start(cfg), n).sent
    ensures ZoneController.Handled(inbox) == |inbox| && ThrottleController.Handled(inbox) == |inbox|
  {
    var sent := VisionServer.Run(cfg, src, frames, VisionServer.Start(cfg), n).sent;
    forall i | 0 <= i < |inbox|
      ensures ZoneController.ReadZones(inbox[i]).Some? && ThrottleController.ReadTarget(inbox[i]).Some?
    {
      var j :| 0 <= j < |sent| && sent[j] == inbox[i];
      ServedRecordsAreWellFormed(cfg, src, frames, n, j);
      WellFormedRecordIsReadable(inbox[i]);
    }
  }

  /** The zone a published record steers towards is decided from the
      classifier's outputs on the three crops of the prepared frame. */
  lemma ServedCommandFollowsCrops(cfg: VisionServer.Config, frame: Image, lastTime: real, now: real)
    ensures var m := VisionServer.Publish(cfg, frame, lastTime, now);
      var rgb := ToRgb(VisionServer.Prepare(cfg, frame));
      var p := VisionServer.ZoneProbs(rgb, cfg.classify);
      && ZoneController.ReadZones(m).Some?
      && ZoneController.ReadZones(m).value
         == ZoneController.ZoneProbs(p[LEFT], p[CENTER], p[RIGHT])
      && ThrottleController.ReadTarget(m) == Some(cfg.classify(CropAt(rgb, VisionServer.CROPS_X[CENTER])))
  {
    var m := VisionServer.Publish(cfg, frame, lastTime, now);
    VisionServer.PublishIsWellFormed(cfg, frame, lastTime, now);
    WellFormedRecordIsReadable(m);
  }

  /** With the resize to the Jetson resolution, the zones a controller reads
      from a record are the classifier's values on the three exact
      224 x 224 windows at columns 0, 48 and 96 of the prepared frame. */
  lemma ServedZonesComeFromWindows(cfg: VisionServer.Config, frame: Image, lastTime: real, now: real)
    requires VisionServer.ResizesToCam(cfg)
    ensures var m := VisionServer.Publish(cfg, frame, lastTime, now);
      var rgb := ToRgb(VisionServer.Prepare(cfg, frame));
      && FullWidth(rgb)
      && ZoneController.ReadZones(m)
         == Some(ZoneController.ZoneProbs(cfg.classify(Window(rgb, 0)), cfg.classify(Window(rgb, 48)),
                                          cfg.classify(Window(rgb, 96))))
  {
    VisionServer.ServedCropsAreWindows(cfg, frame);
    ServedCommandFollowsCrops(cfg, frame, lastTime, now);
  }
}
