/** Which history lists are shared. Python lists are objects: an aggregate appends to its own in
    place, while the archive of a save holds the very list that the saved row holds. */
module Snapshots {
  import opened Domain

  class HistoryList {
    var items: seq<History>
    constructor (items: seq<History>)
      ensures this.items == items
    {
      this.items := items;
    }
  }

  class Entity {
    const id: Uuid
    const list: HistoryList // _operation_histories

    constructor (id: Uuid, list: HistoryList)
      ensures this.id == id && this.list == list
    {
      this.id, this.list := id, list;
    }

    /** The property hands out a copy. */
    method OperationHistories() returns (copy: HistoryList)
      ensures fresh(copy) && copy.items == list.items
    {
      copy := new HistoryList(list.items);
    }
  }

  class Model {
    var list: HistoryList
    constructor (list: HistoryList)
      ensures this.list == list
    {
      this.list := list;
    }
  }

  /** The models of a session, its archives, and every aggregate object handed out so far. */
  class Store {
    var models: map<Uuid, Model>
    var archives: seq<HistoryList>
    var entities: seq<Entity>

    // what their lists hold
    ghost var stored: map<Uuid, seq<History>>
    ghost var archived: seq<seq<History>>
    ghost var held: seq<seq<History>>

    ghost predicate Valid()
      reads *
    {
      && stored.Keys == models.Keys && |archived| == |archives| && |held| == |entities|
      && (forall id :: id in models ==> models[id].list.items == stored[id])
      && (forall k :: 0 <= k < |archives| ==> archives[k].items == archived[k])
      && (forall i :: 0 <= i < |entities| ==> entities[i].list.items == held[i])
      && (forall id, id' :: id in models && id' in models && id != id' ==> models[id] != models[id'])
      && Unshared()
    }

    /** No aggregate shares its list with another, with a model or with an archive. Models and
        archives may share. */
    ghost predicate Unshared()
      reads this, models.Values
    {
      && (forall i, j :: 0 <= i < j < |entities| ==> entities[i].list != entities[j].list)
      && (forall i, k :: 0 <= i < |entities| && 0 <= k < |archives| ==> entities[i].list != archives[k])
      && (forall i, id :: 0 <= i < |entities| && id in models ==> entities[i].list != models[id].list)
    }

    constructor ()
      ensures Valid() && archived == [] && stored == map[] && held == []
    {
      models, archives, entities := map[], [], [];
      stored, archived, held := map[], [], [];
    }

    /** A new aggregate starts with an empty list of its own. */
    method Create(id: Uuid) returns (k: nat)
      requires Valid()
      modifies this`entities, this`held
      ensures Valid() && k == |old(entities)| && held == old(held) + [[]]
    {
      k := Adopt(id, []);
    }

    /** A loaded aggregate gets a new list with the items of the model's. */
    method Load(id: Uuid) returns (k: nat)
      requires Valid() && id in models
      modifies this`entities, this`held
      ensures Valid() && k == |old(entities)| && held == old(held) + [stored[id]]
    {
      k := Adopt(id, models[id].list.items);
    }

    method Adopt(id: Uuid, items: seq<History>) returns (k: nat)
      requires Valid()
      modifies this`entities, this`held
      ensures Valid() && k == |old(entities)| && |entities| == k + 1 && entities[k].id == id
      ensures held == old(held) + [items]
    {
      k := |entities|;
      var list := new HistoryList(items);
      var e := new Entity(id, list);
      entities := entities + [e];
      held := held + [items];
    }

    /** Appending to an aggregate's list changes what it holds alone: no archive, no stored row and
        no other aggregate sees it. */
    method Append(k: nat, h: History)
      requires Valid() && k < |entities|
      modifies entities[k].list, this`held
      ensures Valid() && held == old(held)[k := old(held)[k] + [h]]
    {
      entities[k].list.items := entities[k].list.items + [h];
      held := held[k := held[k] + [h]];
    }

    /** Saving gives the row a new list, and the archive shares it; a deleted row goes away, its
        archive stays. */
    method Save(k: nat, delete: bool)
      requires Valid() && k < |entities|
      modifies this`models, this`archives, this`stored, this`archived, models.Values
      ensures Valid() && archived == old(archived) + [held[k]]
      ensures stored == if delete then old(stored) - {entities[k].id} else old(stored)[entities[k].id := held[k]]
    {
      var e := entities[k];
      var copy := e.OperationHistories();
      assert Valid() && copy.items == held[k];
      WriteAndArchive(e.id, copy.items);
      if delete {
        Remove(e.id);
      }
    }

    method WriteAndArchive(id: Uuid, items: seq<History>)
      requires Valid()
      modifies this`models, this`archives, this`stored, this`archived, models.Values
      ensures Valid() && archived == old(archived) + [items] && stored == old(stored)[id := items]
    {
      var model := Write(id, items);
      Archive(model.list);
    }

    method Remove(id: Uuid)
      requires Valid()
      modifies this`models, this`stored
      ensures Valid() && stored == old(stored) - {id}
    {
      models, stored := models - {id}, stored - {id};
    }

    /** The row of a new or a loaded aggregate gets a list of its own. */
    method Write(id: Uuid, items: seq<History>) returns (model: Model)
      requires Valid()
      modifies this`models, this`stored, models.Values
      ensures Valid() && fresh(model.list) && model.list.items == items
      ensures stored == old(stored)[id := items]
    {
      var serialized := new HistoryList(items);
      if id in models {
        model := models[id];
        model.list := serialized;
      } else {
        model := new Model(serialized);
        models := models[id := model];
      }
      stored := stored[id := items];
    }

    method Archive(list: HistoryList)
      requires Valid() && forall i :: 0 <= i < |entities| ==> entities[i].list != list
      modifies this`archives, this`archived
      ensures Valid() && archived == old(archived) + [list.items]
    {
      archives := archives + [list];
      archived := archived + [list.items];
    }
  }
}
