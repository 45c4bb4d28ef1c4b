/**
 * What the television screen shows in TV view: nothing, a placeholder, or
 * one of four visualizers chosen by an integer with a default case, plus
 * the label naming that visualizer.
 */
module TVVisualizer {
  import opened Store
  import opened Common

  datatype Visualizer = FrequencyBars | Waveform | AbstractPatterns | ShaderVisualizer

  datatype Screen = Hidden | Placeholder | Draw(visualizer: Visualizer)

  const VISUALIZER_NAMES: seq<string> := ["FREQUENCY", "WAVEFORM", "PATTERNS", "SHADER"]

  /** The `switch` on the type: 0..3 pick the four routines in order, anything else the bars. */
  function SelectVisualizer(visualizerType: Option<int>): (v: Visualizer)
    ensures visualizerType == Some(1) ==> v == Waveform
    ensures visualizerType == Some(2) ==> v == AbstractPatterns
    ensures visualizerType == Some(3) ==> v == ShaderVisualizer
    ensures !(visualizerType in {Some(1), Some(2), Some(3)}) ==> v == FrequencyBars
  {
    match visualizerType
    case Some(0) => FrequencyBars
    case Some(1) => Waveform
    case Some(2) => AbstractPatterns
    case Some(3) => ShaderVisualizer
    case _ => FrequencyBars
  }

  /** The whole render decision; `visualizerType` is `None` when the store holds no such field. */
  function Render(mode: ViewMode, dinoGameActive: bool, isPlaying: bool, isInitialized: bool,
                  visualizerType: Option<int>): (s: Screen)
    ensures s == Hidden <==> mode != TV || dinoGameActive
    ensures s == Placeholder <==> mode == TV && !dinoGameActive && (!isPlaying || !isInitialized)
    ensures s.Draw? ==> isPlaying && isInitialized && s.visualizer == SelectVisualizer(visualizerType)
  {
    if mode != TV || dinoGameActive then Hidden
    else if !isPlaying || !isInitialized then Placeholder
    else Draw(SelectVisualizer(visualizerType))
  }

  /** `visualizerNames[visualizerType]`: a name only for the four table indices. */
  function Label(visualizerType: Option<int>): (name: Option<string>)
    ensures name.Some? <==> visualizerType.Some? && 0 <= visualizerType.value < 4
  {
    match visualizerType
    case Some(t) => if 0 <= t < |VISUALIZER_NAMES| then Some(VISUALIZER_NAMES[t]) else None
    case None => None
  }

  function NameOf(v: Visualizer): string
  {
    match v
    case FrequencyBars => "FREQUENCY"
    case Waveform => "WAVEFORM"
    case AbstractPatterns => "PATTERNS"
    case ShaderVisualizer => "SHADER"
  }

  /** The label names the routine drawn, except on the default path, where bars are drawn under no label. */
  lemma LabelMatchesSelection(visualizerType: Option<int>)
    ensures Label(visualizerType).Some? ==> Label(visualizerType) == Some(NameOf(SelectVisualizer(visualizerType)))
    ensures Label(visualizerType).None? ==> SelectVisualizer(visualizerType) == FrequencyBars
  {
  }

  /** Every routine is reachable by exactly one type in the table. */
  lemma SelectionCoversTable(v: Visualizer)
    ensures exists t :: 0 <= t < 4 && SelectVisualizer(Some(t)) == v
    ensures forall t1, t2 :: 0 <= t1 < 4 && 0 <= t2 < 4 && SelectVisualizer(Some(t1)) == SelectVisualizer(Some(t2)) ==> t1 == t2
  {
    match v
    case FrequencyBars => assert SelectVisualizer(Some(0)) == v;
    case Waveform => assert SelectVisualizer(Some(1)) == v;
    case AbstractPatterns => assert SelectVisualizer(Some(2)) == v;
    case ShaderVisualizer => assert SelectVisualizer(Some(3)) == v;
  }
}
