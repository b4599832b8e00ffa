/** The walking animation played while the horse wanders, and the footstep
    sound each step of it makes. */
module Animation {
  import opened Directions

  datatype Option<T> = None | Some(value: T)

  /** One animation frame: the index of the sprite on the horse's sheet, how long
      it is shown, whether it is drawn mirrored, and whether showing it plays a
      footstep sound. */
  datatype Frame = Frame(sprite: nat, ms: nat, flip: bool, footstep: bool)

  /** Every walking frame is shown for 70 milliseconds. */
  const FrameMs: nat := 70

  function WalkFrame(sprite: nat, flip: bool, footstep: bool): Frame
  {
    Frame(sprite, FrameMs, flip, footstep)
  }

  /** The six-frame walk cycle started when the horse sets off facing `d`.
      Right and Left share one strip of the sheet, Left drawing it mirrored;
      the middle three frames (the second to the fourth) play a footstep. */
  function WalkFrames(d: Direction): (fs: seq<Frame>)
    ensures |fs| == 6
    ensures forall i :: 0 <= i < |fs| ==> fs[i].ms == 70
    ensures forall i :: 0 <= i < |fs| ==> (fs[i].footstep <==> 1 <= i <= 3)
    ensures forall i :: 0 <= i < |fs| ==> (fs[i].flip <==> d == Left)
    ensures d == Right || d == Left ==> forall i :: 0 <= i < |fs| ==> fs[i].sprite == 8 + i
    ensures d == Up ==> forall i :: 0 <= i < |fs| ==> fs[i].sprite == 15 + i
    ensures d == Down ==> forall i :: 0 <= i < |fs| ==> fs[i].sprite == 1 + i
  {
    match d
    case Right =>
      [WalkFrame(8, false, false), WalkFrame(9, false, true), WalkFrame(10, false, true),
       WalkFrame(11, false, true), WalkFrame(12, false, false), WalkFrame(13, false, false)]
    case Left =>
      [WalkFrame(8, true, false), WalkFrame(9, true, true), WalkFrame(10, true, true),
       WalkFrame(11, true, true), WalkFrame(12, true, false), WalkFrame(13, true, false)]
    case Up =>
      [WalkFrame(15, false, false), WalkFrame(16, false, true), WalkFrame(17, false, true),
       WalkFrame(18, false, true), WalkFrame(19, false, false), WalkFrame(20, false, false)]
    case Down =>
      [WalkFrame(1, false, false), WalkFrame(2, false, true), WalkFrame(3, false, true),
       WalkFrame(4, false, true), WalkFrame(5, false, false), WalkFrame(6, false, false)]
  }

  /** The same frames drawn mirrored. */
  function Mirrored(fs: seq<Frame>): (ms: seq<Frame>)
    ensures |ms| == |fs|
    ensures forall i :: 0 <= i < |fs| ==> ms[i] == fs[i].(flip := true)
  {
    seq(|fs|, i requires 0 <= i < |fs| => fs[i].(flip := true))
  }

  /** Walking left is walking right seen in a mirror. */
  lemma LeftMirrorsRight()
    ensures WalkFrames(Left) == Mirrored(WalkFrames(Right))
  {
  }

  /** Walking up, right and down are never mirrored. */
  lemma OnlyLeftIsMirrored(d: Direction)
    ensures (exists i :: 0 <= i < |WalkFrames(d)| && WalkFrames(d)[i].flip) <==> d == Left
  {
    assert WalkFrames(d)[0].flip <==> d == Left;
  }

  /** The sound a footstep makes on a tile whose "Type" property is `tileType`
      (None when the tile has no such property). */
  function FootstepSound(tileType: Option<string>): (cue: string)
    ensures cue in {"stoneStep", "woodyStep", "thudStep"}
    ensures cue == "stoneStep" <==> tileType == Some("Stone")
    ensures cue == "woodyStep" <==> tileType == Some("Wood")
  {
    match tileType
    case Some("Stone") => "stoneStep"
    case Some("Wood") => "woodyStep"
    case _ => "thudStep"
  }

  /** Every tile type other than stone and wood, including a missing one,
      gives the generic thud. */
  lemma ThudIsTheDefault(tileType: Option<string>)
    requires tileType != Some("Stone") && tileType != Some("Wood")
    ensures FootstepSound(tileType) == "thudStep"
  {
  }
}
