/** `Names` (src/components/Names.ts): a name attached to an element, kept in a registry from
    names to elements. The registry is static in the source; here it is one shared
    `NameRegistry` object that every `Names` refers to. */
module Names {
  import opened Wrappers

  /** An HTML element, by identity. */
  datatype ElementRef = ElementRef(id: nat)

  class NameRegistry {
    var entries: map<string, ElementRef>

    constructor ()
      ensures entries == map[]
    {
      entries := map[];
    }

    /** `getByName`: the element registered under the name, if any. */
    function GetByName(name: string): (r: Option<ElementRef>)
      reads this
      ensures r.Some? <==> name in entries
      ensures r.Some? ==> entries[name] == r.value
    {
      if name in entries then Some(entries[name]) else None
    }

    /** `removeByName`: forgets the name and nothing else. */
    method RemoveByName(name: string)
      modifies this
      ensures entries == old(entries) - {name}
    {
      entries := entries - {name};
    }
  }

  class Names {
    const registry: NameRegistry
    var name: string

    /** Registers the element under the name, replacing any element registered under it. */
    constructor (name: string, element: ElementRef, registry: NameRegistry)
      modifies registry
      ensures this.name == name && this.registry == registry
      ensures registry.entries == old(registry.entries)[name := element]
    {
      this.name := name;
      this.registry := registry;
      new;
      registry.entries := registry.entries[name := element];
    }

    function GetName(): (n: string)
      reads this
      ensures n == name
    {
      name
    }

    /** `setName`: the old name is unregistered, then the element is registered under the new
        one. */
    method SetName(newName: string, element: ElementRef)
      modifies this`name, registry
      ensures name == newName
      ensures registry.entries == (old(registry.entries) - {old(name)})[newName := element]
    {
      registry.entries := registry.entries - {name};
      name := newName;
      registry.entries := registry.entries[newName := element];
    }

    /** `isNamed`. */
    predicate IsNamed(other: string)
      reads this
      ensures IsNamed(other) <==> name == other
    {
      name == other
    }
  }

  /** A rename moves the element: the new name finds it and the old one finds nothing, while
      other names keep their elements. */
  method RenameMovesEntry(oldName: string, newName: string, other: string, e: ElementRef, f: ElementRef)
    returns (byOld: Option<ElementRef>, byNew: Option<ElementRef>, byOther: Option<ElementRef>, named: bool)
    requires oldName != newName && other != oldName && other != newName
    ensures byOld.None? && byNew == Some(e) && byOther == Some(f)
    ensures named
  {
    var reg := new NameRegistry();
    var o := new Names(other, f, reg);
    var n := new Names(oldName, e, reg);
    n.SetName(newName, e);
    byOld := reg.GetByName(oldName);
    byNew := reg.GetByName(newName);
    byOther := reg.GetByName(other);
    named := n.IsNamed(newName);
  }

  /** The registry keeps one element per name: a second `Names` with the same name takes the
      entry over, and renaming either one unregisters the name for both. */
  method SharedNameRenamed(shared: string, renamed: string, e: ElementRef, f: ElementRef)
    returns (afterSecond: Option<ElementRef>, afterRename: Option<ElementRef>, firstStillNamed: bool)
    requires shared != renamed
    ensures afterSecond == Some(f)
    ensures afterRename.None?
    ensures firstStillNamed
  {
    var reg := new NameRegistry();
    var a := new Names(shared, e, reg);
    var b := new Names(shared, f, reg);
    afterSecond := reg.GetByName(shared);
    b.SetName(renamed, f);
    afterRename := reg.GetByName(shared);
    firstStillNamed := a.IsNamed(shared);
  }
}
