/** The Network Manager service as far as the controller can see it: one global network,
    whose calls may fail. A failed call may still have taken effect, on all, some or none
    of the keys it names. AWS's own tags cannot be written: a tag call that names one is
    refused whole. */
module Backend {
  import opened Wrappers
  import opened Errors
  import opened TagLists
  import opened TagRules
  import opened ApiTypes

  /** The SDK's tag is a struct, never nil; its key and value are pointers. */
  type SdkTag = t: TagV | t.Tag? witness TagV.Tag(None, None)

  /** The SDK's `types.GlobalNetwork`. */
  datatype SdkNetwork = SdkNetwork(createdAt: Option<int>, description: Option<string>, arn: Option<string>,
                                   id: Option<string>, state: string, tags: Option<seq<SdkTag>>)

  /** What the environment does to one tag call: nothing, or fail it after it took effect
      on the keys in `applied`. */
  datatype TagFault = NoFault | Failing(applied: set<string>, error: Error)

  /** The same for the update of the description. */
  datatype UpdateFault = NoUpdateFault | UpdateFailing(applied: bool, error: Error)

  /** The environment's choices for the calls of one reconciliation. */
  datatype Faults = Faults(describe: Option<Error>, tag: TagFault, untag: TagFault, update: UpdateFault)

  datatype Store = Store(tags: map<string, string>, description: Option<string>)

  predicate NamesAws(keys: set<string>) {
    exists k :: k in keys && IsAws(k)
  }

  function AfterTag(tags: map<string, string>, add: map<string, string>, fault: TagFault): map<string, string> {
    if NamesAws(add.Keys) then tags
    else match fault
      case NoFault => tags + add
      case Failing(applied, _) => tags + map k | k in add && k in applied :: add[k]
  }

  /** The error a tag call on these keys comes back with; None is success. */
  function TagAnswer(keys: set<string>, fault: TagFault): Option<Error> {
    if NamesAws(keys) then Some(REFUSED)
    else match fault
      case NoFault => None
      case Failing(_, error) => Some(error)
  }

  function AfterUntag(tags: map<string, string>, keys: set<string>, fault: TagFault): map<string, string> {
    if NamesAws(keys) then tags
    else match fault
      case NoFault => tags - keys
      case Failing(applied, _) => tags - keys * applied
  }

  /** A nil description is not sent, and so changes nothing. */
  function AfterUpdate(current: Option<string>, sent: Option<string>, fault: UpdateFault): Option<string> {
    if sent.Some? && (fault.NoUpdateFault? || fault.applied) then sent else current
  }

  function UpdateAnswer(fault: UpdateFault): Option<Error> {
    match fault
    case NoUpdateFault => None
    case UpdateFailing(_, error) => Some(error)
  }

  function CreateAnswer(keys: set<string>, fault: Option<Error>): Option<Error> {
    if NamesAws(keys) then Some(REFUSED) else fault
  }

  class Client {
    const networkID: string
    const arn: string
    const createdAt: int
    var created: bool
    var state: string
    var tags: map<string, string>
    var description: Option<string>
    var calls: nat  // changing calls made so far
    var faults: Faults

    constructor (networkID: string, arn: string, createdAt: int, faults: Faults)
      ensures !created && calls == 0 && this.faults == faults
      ensures this.networkID == networkID && this.arn == arn
    {
      this.networkID, this.arn, this.createdAt, this.faults := networkID, arn, createdAt, faults;
      created, state, tags, description, calls := false, "", map[], None, 0;
    }

    function Current(): Store
      reads this`tags, this`description
    {
      Store(tags, description)
    }

    /** The faults that calls meet which name this ARN and this ID: a call that names
        another network is answered NotFound and changes nothing. */
    function Addressed(arn: Option<string>, id: Option<string>): Faults
      reads this`faults
    {
      var lost := Failing({}, NOT_FOUND);
      if arn == Some(this.arn) then
        faults.(update := if id == Some(networkID) then faults.update else UpdateFailing(false, NOT_FOUND))
      else
        faults.(tag := lost, untag := lost,
                update := if id == Some(networkID) then faults.update else UpdateFailing(false, NOT_FOUND))
    }

    /** `g` describes the network; its tags are listed in some order, and a network
        without tags may be reported with a nil list. */
    ghost predicate Reports(g: SdkNetwork)
      reads this
    {
      && g.createdAt == Some(createdAt) && g.description == description && g.arn == Some(arn)
      && g.id == Some(networkID) && g.state == state
      && Arranges(Slice(g.tags), tags, [])
    }

    method Describe() returns (g: SdkNetwork)
      ensures Reports(g)
    {
      var listed: seq<SdkTag> := [];
      ghost var keys: seq<string> := [];
      var todo := tags.Keys;
      while todo != {}
        invariant todo <= tags.Keys && Elems(keys) == tags.Keys - todo && NoDup(keys)
        invariant listed == Render(tags, keys)
      {
        var k :| k in todo;
        todo := todo - {k};
        listed := listed + [TagV.Tag(Some(k), Some(tags[k]))];
        assert k !in Elems(keys) && Elems(keys + [k]) == Elems(keys) + {k};
        keys := keys + [k];
      }
      RenderArranges(tags, [], keys);
      assert Firsts([], tags.Keys) + keys == keys;
      var reportNil: bool := *;
      g := SdkNetwork(Some(createdAt), description, Some(arn), Some(networkID), state,
                      if listed == [] && reportNil then None else Some(listed));
    }

    method DescribeGlobalNetworks(ids: seq<string>) returns (resp: Result<seq<SdkNetwork>>)
      ensures resp.Err? <==> faults.describe.Some?
      ensures resp.Err? ==> resp.error == faults.describe.value
      ensures resp.Ok? && created && networkID in ids ==> |resp.value| == 1 && Reports(resp.value[0])
      ensures resp.Ok? && !(created && networkID in ids) ==> resp.value == []
    {
      if faults.describe.Some? {
        return Err(faults.describe.value);
      }
      if !created || networkID !in ids {
        return Ok([]);
      }
      var g := Describe();
      return Ok([g]);
    }

    method CreateGlobalNetwork(description: Option<string>, tags: Option<seq<SdkTag>>, fault: Option<Error>)
      returns (resp: Result<SdkNetwork>)
      modifies this`created, this`state, this`tags, this`description, this`calls
      ensures calls == old(calls) + 1
      ensures resp.Ok? <==> CreateAnswer(ToMap(Slice(tags)).Keys, fault).None?
      ensures resp.Err? ==> CreateAnswer(ToMap(Slice(tags)).Keys, fault) == Some(resp.error)
      ensures resp.Err? ==> created == old(created) && Current() == old(Current())
      ensures resp.Ok? ==> created && Current() == Store(ToMap(Slice(tags)), description) && Reports(resp.value)
    {
      calls := calls + 1;
      if NamesAws(ToMap(Slice(tags)).Keys) {
        return Err(REFUSED);
      }
      if fault.Some? {
        return Err(fault.value);
      }
      this.created, this.state, this.tags, this.description := true, "PENDING", ToMap(Slice(tags)), description;
      var g := Describe();
      return Ok(g);
    }

    method TagResource(resourceARN: string, list: seq<SdkTag>) returns (err: Option<Error>)
      modifies this`tags, this`calls
      ensures calls == old(calls) + 1
      ensures tags == AfterTag(old(tags), ToMap(list), Addressed(Some(resourceARN), None).tag)
      ensures err == TagAnswer(ToMap(list).Keys, Addressed(Some(resourceARN), None).tag)
    {
      calls := calls + 1;
      if NamesAws(ToMap(list).Keys) {
        return Some(REFUSED);
      }
      if resourceARN != arn {
        assert AfterTag(tags, ToMap(list), Failing({}, NOT_FOUND)) == tags;
        return Some(NOT_FOUND);
      }
      tags := AfterTag(tags, ToMap(list), faults.tag);
      err := if faults.tag.Failing? then Some(faults.tag.error) else None;
    }

    method UntagResource(resourceARN: string, keys: seq<string>) returns (err: Option<Error>)
      modifies this`tags, this`calls
      ensures calls == old(calls) + 1
      ensures tags == AfterUntag(old(tags), Elems(keys), Addressed(Some(resourceARN), None).untag)
      ensures err == TagAnswer(Elems(keys), Addressed(Some(resourceARN), None).untag)
    {
      calls := calls + 1;
      if NamesAws(Elems(keys)) {
        return Some(REFUSED);
      }
      if resourceARN != arn {
        assert AfterUntag(tags, Elems(keys), Failing({}, NOT_FOUND)) == tags;
        return Some(NOT_FOUND);
      }
      tags := AfterUntag(tags, Elems(keys), faults.untag);
      err := if faults.untag.Failing? then Some(faults.untag.error) else None;
    }

    method UpdateGlobalNetwork(id: Option<string>, description: Option<string>) returns (resp: Result<SdkNetwork>)
      modifies this`description, this`calls
      ensures calls == old(calls) + 1
      ensures this.description == AfterUpdate(old(this.description), description, Addressed(None, id).update)
      ensures resp.Ok? <==> UpdateAnswer(Addressed(None, id).update).None?
      ensures resp.Err? ==> UpdateAnswer(Addressed(None, id).update) == Some(resp.error)
      ensures resp.Ok? ==> Reports(resp.value)
    {
      calls := calls + 1;
      if id != Some(networkID) {
        return Err(NOT_FOUND);
      }
      this.description := AfterUpdate(this.description, description, faults.update);
      if faults.update.UpdateFailing? {
        return Err(faults.update.error);
      }
      var g := Describe();
      return Ok(g);
    }
  }

  /** The service's answer to a tag call that names an AWS-owned key. */
  const REFUSED := Error(NoSentinel, Some(ApiError("ValidationException", "aws: tags cannot be modified")), false,
                         "aws: tags cannot be modified")
}
