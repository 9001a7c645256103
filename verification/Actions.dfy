/**
 Typed actions, their outputs, capability descriptors, the capability registry and the
 authority a caller grants (ntd-core and capability.rs).
 */
module Actions {
  import opened Wrappers
  import opened Bytes

  datatype SideEffect = ReadOnly | Reversible | ExternalWrite | Irreversible

  datatype Domain = Web | Browser | File | Device | App | Custom | Pc

  datatype TypedAction =
    | WebSearch(query: Str, maxResults: u16)
    | WebFetch(url: Str)
    | ArtifactDownload(url: Str, path: Str)
    | ArtifactUpload(url: Str, path: Str)
    | BrowserObserve(target: Str)
    | BrowserInteract(target: Str, operation: Str, input: Option<Str>)
    | FileRead(path: Str)
    | FileWrite(path: Str, content: Bytes)
    | DeviceObserve(surface: Str)
    | DeviceInteract(surface: Str, operation: Str, argument: Option<Str>)
    | AppAction(app: Str, action: Str, payload: Bytes)
    | PcObserve(peer: Str, surface: Str)
    | PcExecute(peer: Str, program: Str, args: seq<Str>, workingDir: Option<Str>)
    | PcArtifactRead(peer: Str, path: Str)
    | PcArtifactWrite(peer: Str, path: Str, content: Bytes)
    | CustomAction(typeName: Str, payload: Bytes)
  {
    function Domain(): Domain {
      match this
      case WebSearch(_, _) => Web
      case WebFetch(_) => Web
      case ArtifactDownload(_, _) => Web
      case ArtifactUpload(_, _) => Web
      case BrowserObserve(_) => Browser
      case BrowserInteract(_, _, _) => Browser
      case FileRead(_) => File
      case FileWrite(_, _) => File
      case DeviceObserve(_) => Device
      case DeviceInteract(_, _, _) => Device
      case AppAction(_, _, _) => App
      case PcObserve(_, _) => Pc
      case PcExecute(_, _, _, _) => Pc
      case PcArtifactRead(_, _) => Pc
      case PcArtifactWrite(_, _, _) => Pc
      case CustomAction(_, _) => Custom
    }

    /** Every identifying text of the action has a visible character. */
    predicate WellFormed() {
      match this
      case WebSearch(query, maxResults) => !Blank(query) && maxResults != 0
      case WebFetch(url) => !Blank(url)
      case ArtifactDownload(url, path) => !Blank(url) && !Blank(path)
      case ArtifactUpload(url, path) => !Blank(url) && !Blank(path)
      case BrowserObserve(target) => !Blank(target)
      case BrowserInteract(target, operation, _) => !Blank(target) && !Blank(operation)
      case FileRead(path) => !Blank(path)
      case FileWrite(path, _) => !Blank(path)
      case DeviceObserve(surface) => !Blank(surface)
      case DeviceInteract(surface, operation, _) => !Blank(surface) && !Blank(operation)
      case AppAction(app, action, _) => !Blank(app) && !Blank(action)
      case PcObserve(peer, surface) => !Blank(peer) && !Blank(surface)
      case PcExecute(peer, program, _, workingDir) =>
        !Blank(peer) && !Blank(program) && (workingDir.Some? ==> !Blank(workingDir.value))
      case PcArtifactRead(peer, path) => !Blank(peer) && !Blank(path)
      case PcArtifactWrite(peer, path, _) => !Blank(peer) && !Blank(path)
      case CustomAction(typeName, _) => !Blank(typeName)
    }
  }

  datatype Field = Field(key: Str, text: Str)

  /** The entries of a `BTreeMap<String, String>` in key order. */
  ghost predicate Ascending(entries: seq<Field>) {
    forall i, j :: 0 <= i < j < |entries| ==> Less(entries[i].key, entries[j].key)
  }

  type Entries = e: seq<Field> | Ascending(e) witness []

  datatype ActionValue =
    | Nothing
    | Text(text: Str)
    | Blob(blob: Bytes)
    | TextList(texts: seq<Str>)
    | Fields(fields: Entries)

  datatype ActionOutput = ActionOutput(summary: Str, value: ActionValue, evidence: seq<Str>)

  datatype Descriptor = Descriptor(
    version: u32,
    domain: Domain,
    sideEffect: SideEffect,
    verificationRequired: bool,
    rollbackSupported: bool,
    resumable: bool,
    requiredScopes: seq<Str>
  )

  datatype CapabilityError =
    | InvalidAction
    | DomainMismatch(capability: Str, expected: Domain, actual: Domain)
    | MissingCapability(capability: Str)
    | MissingAuthority(scope: Str)
    | ExternalWriteNotAuthorized
    | IrreversibleNotAuthorized

  datatype Registry = Registry(descriptors: map<Str, Descriptor>) {
    function Lookup(id: Str): Result<Descriptor, CapabilityError> {
      if id in descriptors then Ok(descriptors[id]) else Err(MissingCapability(id))
    }

    function ValidateAction(id: Str, action: TypedAction): Result<Descriptor, CapabilityError> {
      if !action.WellFormed() then Err(InvalidAction)
      else
        var descriptor :- Lookup(id);
        if descriptor.domain != action.Domain()
        then Err(DomainMismatch(id, descriptor.domain, action.Domain()))
        else Ok(descriptor)
    }
  }

  datatype Authority = Authority(scopes: set<Str>, allowExternalWrite: bool, allowIrreversible: bool) {
    /** The first required scope, in descriptor order, that was not granted. */
    function FirstMissing(required: seq<Str>): Option<Str> {
      if |required| == 0 then None
      else if required[0] !in scopes then Some(required[0])
      else FirstMissing(required[1..])
    }

    function Permits(d: Descriptor): Result<(), CapabilityError> {
      match FirstMissing(d.requiredScopes)
      case Some(scope) => Err(MissingAuthority(scope))
      case None =>
        match d.sideEffect
        case ReadOnly => Ok(())
        case Reversible => Ok(())
        case ExternalWrite => if allowExternalWrite then Ok(()) else Err(ExternalWriteNotAuthorized)
        case Irreversible => if allowIrreversible then Ok(()) else Err(IrreversibleNotAuthorized)
    }
  }

  datatype ActionNode = ActionNode(id: u32, capability: Str, sideEffect: SideEffect, verificationRequired: bool)

  datatype TaskGraph = TaskGraph(actions: Vec<ActionNode>)
}
