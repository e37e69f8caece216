// Centralised tuning constants of the viewer (src/config.ts).
module Config {

  /** Phase durations of the construction animation, in milliseconds. */
  datatype Durations = Durations(initialDelay: real, vertexBuild: real, edgeDraw: real)

  const DefaultDurations := Durations(750.0, 600.0, 250.0)

  // COLORS
  const ColorGrid := "rgba(204, 204, 204, 0.15)"
  const ColorGround := "rgba(50, 50, 50, 0.5)"
  const ColorEdge := "#a0e6ff"
  const ColorVertex := "#ffffff"
  const ColorHighlight := "#f0ff63"

  // SIZES (world units or CSS pixels)
  const GridMaxExtent := 6.0
  const AxisLength := 2.0
  const VertexRadiusPx := 3.0
  const EdgeWidthPx := 2.5
  const LabelLeaderLenPx := 40.0

  // HIT: hover thresholds in CSS pixels
  const HitVertexRadiusPx := 12.0
  const HitEdgeTolerancePx := 8.0

  // HIGHLIGHT
  const HighlightColor := ColorHighlight
  const VertexHaloAlpha := 0.45
  const VertexHaloScale := 1.8
  const EdgeWidthScale := 1.6
  const EdgeAlpha := 0.45
  const EndCapScale := 1.6

  // LAYERS: the tiebreak within one depth; lower draws first
  const LayerGround := 10
  const LayerGrid := 20
  const LayerEdgeHlUnderlay := 30
  const LayerEdgeBase := 40
  const LayerPointHlUnderlay := 50
  const LayerPointBase := 60
  const LayerLabel := 70

  /** The layers in declaration order; each one draws above the one before it. */
  const Layers: seq<int> := [LayerGround, LayerGrid, LayerEdgeHlUnderlay, LayerEdgeBase,
                             LayerPointHlUnderlay, LayerPointBase, LayerLabel]

  /**
   * The layers strictly increase in declaration order, and each highlight
   * underlay sits directly beneath its base layer with no layer in between.
   */
  lemma LayersAscending()
    ensures forall i, j :: 0 <= i < j < |Layers| ==> Layers[i] < Layers[j]
    ensures forall k :: 0 <= k < |Layers| ==> !(LayerEdgeHlUnderlay < Layers[k] < LayerEdgeBase)
    ensures forall k :: 0 <= k < |Layers| ==> !(LayerPointHlUnderlay < Layers[k] < LayerPointBase)
  {
  }
}
