/**
 * The Streamlit session state of the web application: the text areas,
 * every judgment entered on a slider, the sliders' own widget entries,
 * and the export / import of a session as JSON (web_app.py, lines 16-19,
 * 42-70).
 */
module Session {
  import opened Json
  import opened Wrappers
  import opened PyStr
  import opened SaatyScale
  import opened JudgmentKeys

  const CriteriaInputKey: string := "criteria_input"
  const AlternativesInputKey: string := "alternatives_input"

  const DefaultCriteria: string := "Удобство\nФункционал\nСтоимость\nПоддержка"
  const DefaultAlternatives: string := "Platform A\nPlatform B\nPlatform C"

  /** The session-state key of the slider widget that edits judgment `key`. */
  function SliderKey(key: string): string
  {
    "slider_" + key
  }

  /** Keys that `get_session_data` writes to the exported file. */
  predicate Exported(key: string)
  {
    !StartsWith(key, "slider_") && !StartsWith(key, "last_results")
  }

  /** The exported part of a session: widget state and cached results dropped. */
  function Export(state: Object): (data: Object)
    ensures forall k :: k in data <==> k in state && Exported(k)
    ensures forall k :: k in data ==> data[k] == state[k]
  {
    map k | k in state && Exported(k) :: state[k]
  }

  /** Exporting an export changes nothing: a saved session, loaded and saved again, is the same file. */
  lemma ExportIdempotent(state: Object)
    ensures Export(Export(state)) == Export(state)
  {
  }

  /** Judgments of the criteria matrix always reach the exported file. */
  lemma CriteriaJudgmentsExported(state: Object, a: string, b: string)
    requires Key(CriteriaContext, a, b) in state
    ensures Key(CriteriaContext, a, b) in Export(state)
  {
    var k := Key(CriteriaContext, a, b);
    assert k[0] == 'c';
    assert !StartsWith(k, "slider_") && !StartsWith(k, "last_results");
  }

  /**
   * The alternative judgments of a criterion named "slider" share the
   * widget prefix, so they are left out of the exported file.
   */
  lemma SliderCriterionNotExported(state: Object, a: string, b: string)
    ensures Key("slider", a, b) !in Export(state)
  {
  }

  class SessionState {
    var entries: Object

    /** The state of a fresh session: the two example lists (lines 16-19). */
    constructor ()
      ensures entries == map[CriteriaInputKey := Text(DefaultCriteria), AlternativesInputKey := Text(DefaultAlternatives)]
    {
      entries := map[CriteriaInputKey := Text(DefaultCriteria), AlternativesInputKey := Text(DefaultAlternatives)];
    }

    /** `get_session_data` */
    function GetSessionData(): (data: Object)
      reads this
      ensures forall k :: k in data <==> k in entries && Exported(k)
      ensures forall k :: k in data ==> data[k] == entries[k]
    {
      Export(entries)
    }

    /** `load_session_data`: every key is deleted, then the file's entries are stored. */
    method LoadSessionData(data: Object)
      modifies this
      ensures entries == data
    {
      var keysToClear := entries.Keys;
      while keysToClear != {}
        invariant entries.Keys == keysToClear
        decreases keysToClear
      {
        var k :| k in keysToClear;
        entries := entries - {k};
        keysToClear := keysToClear - {k};
      }
      assert entries == map[];
      var pending := data.Keys;
      while pending != {}
        invariant pending <= data.Keys
        invariant entries == map k | k in data.Keys - pending :: data[k]
        decreases pending
      {
        var k :| k in pending;
        entries := entries[k := data[k]];
        pending := pending - {k};
      }
    }

    /**
     * `create_comparison(prefix, itemA, itemB)` for the slider position
     * `selected` that the user leaves the slider at.  A missing judgment is
     * first stored as 1; the slider opens at the position nearest to the
     * stored value (`shown`); the widget records the chosen label under its
     * own key and the judgment becomes the chosen value.  A stored value
     * that is not a number makes the distance computation fail: nothing is
     * shown and the state keeps what it had.
     */
    method CreateComparison(prefix: string, itemA: string, itemB: string, selected: ScaleLabel)
      returns (shown: Option<ScaleLabel>)
      modifies this
      ensures var key := Key(prefix, itemA, itemB);
              var current := if key in old(entries) then old(entries)[key] else Num(1.0);
              if current.Num? then
                && shown == Some(NearestLabel(current.x))
                && entries == old(entries)[key := Num(ScaleValue(selected))][SliderKey(key) := Text(LabelText(selected))]
              else
                shown == None && entries == old(entries)
      ensures Key(prefix, itemA, itemB) !in old(entries) ==> shown == Some(Equal)
    {
      var key := Key(prefix, itemA, itemB);
      if key !in entries {
        entries := entries[key := Num(1.0)];
      }
      var current := entries[key];
      if !current.Num? {
        shown := None;
        return;
      }
      shown := Some(NearestLabel(current.x));
      DefaultShowsEqual();
      entries := entries[SliderKey(key) := Text(LabelText(selected))];
      entries := entries[key := Num(ScaleValue(selected))];
    }
  }
}
