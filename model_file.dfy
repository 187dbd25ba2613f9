/** The saved model (model.pth) as the generator and the trainer read it:
    which shapes of checkpoint each accepts. The weights themselves are an
    uninterpreted parameter list. */
module ModelFile {
  import opened Collections

  /** A value stored in a checkpoint. */
  datatype Value =
    | StateDict(params: seq<int>)
    | WordIndex(stoi: map<string, int>)
    | IndexWord(itos: map<int, string>)
    | Number(n: int)

  /** What `torch.load` returns: a dictionary (the current format), a tuple
      (the old format) or any other object. */
  datatype Checkpoint =
    | Dict(entries: map<string, Value>)
    | Tuple(items: seq<Value>)
    | OtherObject

  /** What the generator needs from a checkpoint. */
  datatype Artifact = Artifact(state: seq<int>, stoi: map<string, int>, itos: map<int, string>)

  const StateKey := "model_state_dict"
  const StoiKey := "stoi"
  const ItosKey := "itos"
  const VocabSizeKey := "vocab_size"

  /** The artifact made of three values, when they have the right kinds. */
  function FromValues(state: Value, stoi: Value, itos: Value): Option<Artifact> {
    if state.StateDict? && stoi.WordIndex? && itos.IndexWord? then
      Some(Artifact(state.params, stoi.stoi, itos.itos))
    else None
  }

  /** The generator's loading of a checkpoint: a dictionary gives its three
      entries, a tuple of three is unpacked, anything else is rejected. A
      missing key or a value of the wrong kind raises too; every failure is
      caught and ends the generator (`None`). */
  function Load(c: Checkpoint): Option<Artifact> {
    match c
    case Dict(e) =>
      if StateKey in e && StoiKey in e && ItosKey in e then FromValues(e[StateKey], e[StoiKey], e[ItosKey])
      else None
    case Tuple(items) =>
      if |items| == 3 then FromValues(items[0], items[1], items[2]) else None
    case OtherObject => None
  }

  /** The dictionary the trainer saves: weights, both vocabulary maps and the
      vocabulary size. */
  function Saved(a: Artifact): Checkpoint {
    Dict(map[StateKey := StateDict(a.state), StoiKey := WordIndex(a.stoi), ItosKey := IndexWord(a.itos),
             VocabSizeKey := Number(|a.stoi|)])
  }

  /** What the trainer saves, the generator loads back unchanged. */
  lemma LoadSaved(a: Artifact)
    ensures Load(Saved(a)) == Some(a)
  {
    var e := Saved(a).entries;
    assert e[StateKey] == StateDict(a.state);
    assert e[StoiKey] == WordIndex(a.stoi);
    assert e[ItosKey] == IndexWord(a.itos);
  }

  /** The old tuple format is still accepted, and only with three items. */
  lemma LoadTuple(items: seq<Value>)
    ensures Load(Tuple(items)).Some? <==>
      |items| == 3 && items[0].StateDict? && items[1].WordIndex? && items[2].IndexWord?
    ensures Load(Tuple(items)).Some? ==>
      Load(Tuple(items)).value == Artifact(items[0].params, items[1].stoi, items[2].itos)
  {
  }

  /** A dictionary loads exactly when its three entries are there with the
      right kinds; the vocabulary size entry is not needed. */
  lemma LoadDict(e: map<string, Value>)
    ensures Load(Dict(e)).Some? <==>
      && StateKey in e && e[StateKey].StateDict?
      && StoiKey in e && e[StoiKey].WordIndex?
      && ItosKey in e && e[ItosKey].IndexWord?
  {
  }
}
