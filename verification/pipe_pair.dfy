/** One pair of pipes of the scrolling flappy game
    (3d-flappy-bird/src/entities/PipePair.js). The pair is a group whose x and
    z move; inside it a top and a bottom group are placed vertically around
    the gap. The pipe meshes are cylinders of height twice the sky level,
    centred on their group. Colour and meshes are visual; bounding boxes come
    from the rendering library and are not modelled. */
module PipePair {
  import opened FlappyConfig

  datatype PipePair = PipePair(x: real, z: real, gapSize: real, offset: real, scored: bool, topY: real, bottomY: real)

  const PipeHeight: real := SkyLevel * 2.0

  /** The top and bottom groups sit where `#updatePositions` puts them. */
  predicate Placed(p: PipePair)
  {
    && p.topY == p.offset + p.gapSize / 2.0 + SkyLevel
    && p.bottomY == p.offset - p.gapSize / 2.0 - SkyLevel
  }

  /** Lower edge of the top pipe. */
  function TopInner(p: PipePair): real
  {
    p.topY - PipeHeight / 2.0
  }

  /** Upper edge of the bottom pipe. */
  function BottomInner(p: PipePair): real
  {
    p.bottomY + PipeHeight / 2.0
  }

  /** `#updatePositions`: re-derive both group heights; nothing else moves. */
  function UpdatePositions(p: PipePair): (r: PipePair)
    ensures Placed(r)
    ensures r.x == p.x && r.z == p.z && r.gapSize == p.gapSize && r.offset == p.offset && r.scored == p.scored
  {
    p.(topY := p.offset + p.gapSize / 2.0 + SkyLevel, bottomY := p.offset - p.gapSize / 2.0 - SkyLevel)
  }

  /** The constructor: an unscored pair at the group origin. */
  function New(gapSize: real, offset: real): (r: PipePair)
    ensures !r.scored && r.x == 0.0 && r.z == 0.0
    ensures r.gapSize == gapSize && r.offset == offset
    ensures Placed(r)
  {
    UpdatePositions(PipePair(0.0, 0.0, gapSize, offset, false, 0.0, 0.0))
  }

  /** The opening between the pipes is exactly the gap, centred on the
      offset. */
  lemma OpeningIsGap(p: PipePair)
    requires Placed(p)
    ensures TopInner(p) - BottomInner(p) == p.gapSize
    ensures (TopInner(p) + BottomInner(p)) / 2.0 == p.offset
    ensures TopInner(p) == p.offset + p.gapSize / 2.0
    ensures BottomInner(p) == p.offset - p.gapSize / 2.0
  {
  }

  /** Scroll left by the pipe speed times the frame length; nothing else
      changes. */
  function Update(p: PipePair, delta: real): (r: PipePair)
    ensures r.x == p.x - PipeSpeed * delta
    ensures r.(x := p.x) == p
    ensures Placed(p) ==> Placed(r)
  {
    p.(x := p.x - PipeSpeed * delta)
  }

  predicate IsOffscreen(p: PipePair)
  {
    p.x < -SpawnDistance * 1.2
  }

  lemma OffscreenThreshold(p: PipePair)
    ensures IsOffscreen(p) <==> p.x < -43.2
  {
  }

  /** Change the gap; the offset stays and both groups move. */
  function SetGapSize(p: PipePair, gap: real): (r: PipePair)
    ensures r.gapSize == gap && r.offset == p.offset
    ensures Placed(r)
    ensures r.x == p.x && r.z == p.z && r.scored == p.scored
  {
    UpdatePositions(p.(gapSize := gap))
  }

  /** Change the offset; the gap stays and both groups move. */
  function SetOffset(p: PipePair, offset: real): (r: PipePair)
    ensures r.offset == offset && r.gapSize == p.gapSize
    ensures Placed(r)
    ensures r.x == p.x && r.z == p.z && r.scored == p.scored
  {
    UpdatePositions(p.(offset := offset))
  }
}
