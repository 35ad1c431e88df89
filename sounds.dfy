/**
 * The sound-effect table of game/game/definitions/sounddefinitions.cpp: every C_SFX instance of
 * the script is stored under its symbol name, a later instance replacing an earlier one of the
 * same name, and a lookup answers the stored record or one shared default record. Running the
 * script VM is outside this model: the symbols arrive as a sequence of already initialised
 * instances.
 */
module SoundDefs {
  /** The script class C_SFX. */
  datatype Sfx = Sfx(file: string, pitchOff: int, pitchVar: int, vol: int, loop: int,
                     loopStartOffset: int, loopEndOffset: int, reverbLevel: real, pfxName: string)

  /** The default-constructed C_SFX every missing name is answered with. */
  const DefaultSfx := Sfx("", 0, 0, 0, 0, 0, 0, 0.0, "")

  /** One C_SFX symbol of Sfx.dat: its name and the instance the script initialised. */
  datatype Symbol = Symbol(name: string, sfx: Sfx)

  /** The table after storing the symbols one after another, each under its own name. */
  function Table(syms: seq<Symbol>): map<string, Sfx> {
    if syms == [] then map[]
    else Table(syms[..|syms| - 1])[syms[|syms| - 1].name := syms[|syms| - 1].sfx]
  }

  /** A name is in the table exactly when some symbol has it. */
  lemma {:induction false} TableHasName(syms: seq<Symbol>, name: string)
    ensures name in Table(syms) <==> exists i :: 0 <= i < |syms| && syms[i].name == name
  {
    if syms != [] {
      var init, last := syms[..|syms| - 1], syms[|syms| - 1];
      TableHasName(init, name);
      if name in Table(syms) {
        if last.name != name {
          var i :| 0 <= i < |init| && init[i].name == name;
          assert syms[i] == init[i];
        }
      } else {
        forall i | 0 <= i < |syms|
          ensures syms[i].name != name
        {
          if i < |init| {
            assert syms[i] == init[i];
          }
        }
      }
    }
  }

  /** A stored name holds the instance of the last symbol with that name: later symbols overwrite. */
  lemma {:induction false} TableLastWins(syms: seq<Symbol>, name: string, i: nat)
    requires i < |syms| && syms[i].name == name
    requires forall j :: i < j < |syms| ==> syms[j].name != name
    ensures name in Table(syms) && Table(syms)[name] == syms[i].sfx
  {
    var init, last := syms[..|syms| - 1], syms[|syms| - 1];
    if i < |syms| - 1 {
      assert last.name != name;
      assert init[i] == syms[i];
      forall j | i < j < |init|
        ensures init[j].name != name
      {
        assert init[j] == syms[j];
      }
      TableLastWins(init, name, i);
    }
  }

  /** Looking a name up in the table: the last symbol's instance, or the default when no symbol has it. */
  lemma TableLookup(syms: seq<Symbol>, name: string)
    ensures (forall i :: 0 <= i < |syms| ==> syms[i].name != name) ==>
      (if name in Table(syms) then Table(syms)[name] else DefaultSfx) == DefaultSfx
    ensures forall i :: (0 <= i < |syms| && syms[i].name == name &&
      forall j :: i < j < |syms| ==> syms[j].name != name) ==>
      (if name in Table(syms) then Table(syms)[name] else DefaultSfx) == syms[i].sfx
  {
    TableHasName(syms, name);
    forall i | 0 <= i < |syms| && syms[i].name == name && forall j :: i < j < |syms| ==> syms[j].name != name
      ensures name in Table(syms) && Table(syms)[name] == syms[i].sfx
    {
      TableLastWins(syms, name, i);
    }
  }

  class SoundDefinitions {
    var sfx: map<string, Sfx>
    /** The symbols the table was filled from. */
    ghost var symbols: seq<Symbol>

    ghost predicate Valid()
      reads this
    {
      sfx == Table(symbols)
    }

    /** SoundDefinitions::SoundDefinitions (sounddefinitions.cpp:8-17): store every symbol in order. */
    constructor (syms: seq<Symbol>)
      ensures Valid() && symbols == syms
    {
      var t: map<string, Sfx> := map[];
      for i := 0 to |syms|
        invariant t == Table(syms[..i])
      {
        assert syms[..i + 1][..i] == syms[..i];
        t := t[syms[i].name := syms[i].sfx];
      }
      assert syms[..|syms|] == syms;
      sfx := t;
      symbols := syms;
    }

    /**
     * SoundDefinitions::operator[] (sounddefinitions.cpp:19-25): the instance of the last symbol
     * with that name, or the default record when no symbol has it.
     */
    function Get(name: string): (r: Sfx)
      requires Valid()
      reads this
      ensures (forall i :: 0 <= i < |symbols| ==> symbols[i].name != name) ==> r == DefaultSfx
      ensures forall i :: (0 <= i < |symbols| && symbols[i].name == name &&
        forall j :: i < j < |symbols| ==> symbols[j].name != name) ==> r == symbols[i].sfx
    {
      TableLookup(symbols, name);
      if name in sfx then sfx[name] else DefaultSfx
    }
  }
}
