/** Defaulting and admission of the two parts of the MariaDB spec that the operations rely on: the storage size and
    the bootstrap source. */
module SpecDefaults {
  import opened Prelude

  // ---------------------------------------------------------------------------------------------
  // Storage
  // ---------------------------------------------------------------------------------------------

  /** The volume claim template, down to its storage request and class. */
  datatype ClaimTemplate = ClaimTemplate(request: Option<nat>, className: Option<string>)

  datatype Storage = Storage(
    ephemeral: Option<bool>,
    size: Option<nat>,
    className: string,
    resizeInUse: Option<bool>,
    waitForResize: Option<bool>,
    template: Option<ClaimTemplate>
  )

  datatype StorageError = EphemeralWithHA | EphemeralWithStorage | ZeroSize | NoStorage | SizeBelowTemplate

  function ValidateStorage(s: Storage, ha: bool): (error: Option<StorageError>) {
    if s.ephemeral == Some(true) then
      if ha then Some(EphemeralWithHA)
      else if s.size.Some? || s.template.Some? then Some(EphemeralWithStorage)
      else None
    else if s.size == Some(0) then Some(ZeroSize)
    else if s.size.None? && s.template.None? then Some(NoStorage)
    else if s.size.Some? && s.template.Some? && s.template.value.request.Some? && s.size.value < s.template.value.request.value
    then Some(SizeBelowTemplate)
    else None
  }

  function GetSize(s: Storage): Option<nat> {
    if s.template.Some? && s.template.value.request.Some? then s.template.value.request else s.size
  }

  predicate ShouldUpdateTemplate(s: Storage) {
    && s.size.Some?
    && (|| s.template.None?
        || s.template.value.request != s.size
        || (s.className != "" && s.className != if s.template.value.className.Some? then s.template.value.className.value else ""))
  }

  /** What the defaults promise: the flags are set, and the size, when there is one, is the template's request. */
  ghost predicate Defaulted(s: Storage) {
    && s.ephemeral.Some?
    && (s.ephemeral == Some(false) ==> s.resizeInUse.Some? && s.waitForResize.Some?)
    && !ShouldUpdateTemplate(s)
  }

  function SetDefaults(s: Storage): (r: Storage)
    ensures Defaulted(r)
    ensures s.size.Some? ==> GetSize(r) == s.size
    ensures s.size.None? ==> GetSize(r) == GetSize(s)
    ensures r.size == s.size && r.className == s.className
    ensures r.ephemeral == if s.ephemeral.None? then Some(false) else s.ephemeral
    ensures r.resizeInUse == if s.resizeInUse.None? && !(s.ephemeral.Some? && s.ephemeral.value) then Some(true) else s.resizeInUse
    ensures r.waitForResize == if s.waitForResize.None? && !(s.ephemeral.Some? && s.ephemeral.value) then Some(true) else s.waitForResize
    ensures s.size.Some? ==> r.template.Some? && r.template.value.request == s.size
    ensures s.size.Some? && s.className != "" ==> r.template.value.className == Some(s.className)
    ensures s.size.None? ==> r.template == s.template
  {
    var ephemeral := if s.ephemeral.None? then Some(false) else s.ephemeral;
    s.(ephemeral := ephemeral,
       resizeInUse := if s.resizeInUse.None? && !ephemeral.value then Some(true) else s.resizeInUse,
       waitForResize := if s.waitForResize.None? && !ephemeral.value then Some(true) else s.waitForResize,
       template := if ShouldUpdateTemplate(s)
                   then Some(ClaimTemplate(s.size, if s.className != "" then Some(s.className) else None))
                   else s.template)
  }

  /** The update webhook: the new object is valid and, where both have a size, the size does not decrease. */
  predicate Admitted(was: Storage, now: Storage, ha: bool) {
    && ValidateStorage(now, ha).None?
    && (GetSize(now).Some? && GetSize(was).Some? ==> GetSize(was).value <= GetSize(now).value)
  }

  /** What makes storage valid: ephemeral on its own and without high availability, or else a positive size or a
      template, and a size that does not go below the template's. */
  lemma StorageValidIff(s: Storage, ha: bool)
    ensures ValidateStorage(s, ha).None? <==>
              || (s.ephemeral == Some(true) && !ha && s.size.None? && s.template.None?)
              || (&& s.ephemeral != Some(true) && s.size != Some(0) && (s.size.Some? || s.template.Some?)
                  && forall size, request ::
                       s.size == Some(size) && s.template.Some? && s.template.value.request == Some(request) ==> request <= size)
  {
  }

  /** The webhook compares what the StatefulSet would be built with: the template's request if it has one, and the size
      only without it. So a size that is edited before it was defaulted into the template is not compared. */
  lemma AdmittedIff(was: Storage, now: Storage, ha: bool)
    ensures var oldSize := if was.template.Some? && was.template.value.request.Some? then was.template.value.request else was.size;
            var newSize := if now.template.Some? && now.template.value.request.Some? then now.template.value.request else now.size;
            Admitted(was, now, ha) <==>
              ValidateStorage(now, ha).None? && (newSize.Some? && oldSize.Some? ==> oldSize.value <= newSize.value)
  {
  }

  /** Defaulting settles in one go, and its result is itself admitted. */
  lemma DefaultsSettle(s: Storage, ha: bool)
    requires ValidateStorage(s, ha).None?
    ensures SetDefaults(SetDefaults(s)) == SetDefaults(s)
    ensures Admitted(s, SetDefaults(s), ha)
  {
  }

  /** A history of the stored spec: user edits that were admitted and defaults that the operator filled in. */
  ghost predicate History(specs: seq<Storage>, ha: bool) {
    && (forall i :: 0 <= i < |specs| ==> ValidateStorage(specs[i], ha).None?)
    && (forall i :: 0 < i < |specs| ==> Admitted(specs[i - 1], specs[i], ha) || specs[i] == SetDefaults(specs[i - 1]))
  }

  /** If no version of the spec is without a size, the size never decreases. */
  lemma {:induction false} SizeNeverDecreases(specs: seq<Storage>, ha: bool, i: nat, j: nat)
    requires History(specs, ha) && i <= j < |specs|
    requires forall k :: i <= k <= j ==> GetSize(specs[k]).Some?
    ensures GetSize(specs[i]).value <= GetSize(specs[j]).value
    decreases j - i
  {
    if i < j {
      SizeNeverDecreases(specs, ha, i, j - 1);
      DefaultsSettle(specs[j - 1], ha);
    }
  }

  /** The proviso is needed: whatever the size, two admitted edits lower it to any other positive size, by way of a
      template without a request. No single edit does. */
  lemma SizeLoweredThroughNoSize(s: Storage, ha: bool, lower: nat) returns (mid: Storage, last: Storage)
    requires ValidateStorage(s, ha).None? && GetSize(s).Some? && 0 < lower < GetSize(s).value
    ensures History([s, mid, last], ha) && GetSize(mid) == None
    ensures GetSize(last) == Some(lower)
    ensures !Admitted(s, last, ha)
  {
    mid := Storage(Some(false), None, s.className, s.resizeInUse, s.waitForResize, Some(ClaimTemplate(None, None)));
    last := mid.(size := Some(lower));
    assert Admitted(s, mid, ha) && Admitted(mid, last, ha);
    var specs := [s, mid, last];
    assert specs[1] == mid && specs[2] == last;
  }

  // ---------------------------------------------------------------------------------------------
  // Bootstrap source
  // ---------------------------------------------------------------------------------------------

  datatype Kind = KindUnset | BackupKind | PhysicalBackupKind | OtherKind
  datatype ContentType = ContentUnset | LogicalContent | PhysicalContent | OtherContent

  datatype BootstrapFrom = BootstrapFrom(
    backupRef: Option<Kind>,
    snapshot: bool,        // volumeSnapshotRef is set
    s3: bool,
    volume: bool,
    restoreJob: bool,
    content: ContentType
  )

  predicate Valid(b: BootstrapFrom) {
    && (b.backupRef.Some? || b.snapshot || b.s3 || b.volume)
    && b.content != OtherContent
    && (b.backupRef.Some? ==>
          match b.backupRef.value
          case KindUnset => b.content == ContentUnset || b.content == LogicalContent
          case BackupKind => b.content == ContentUnset || b.content == LogicalContent
          case PhysicalBackupKind => b.content == ContentUnset || b.content == PhysicalContent
          case OtherKind => false)
    && (b.snapshot ==> (b.content == ContentUnset || b.content == PhysicalContent) && !b.s3 && !b.volume && !b.restoreJob)
  }

  /** What the source is, by its own fields: the explicit type, else the kind of the reference, else the snapshot. */
  function DefaultContent(b: BootstrapFrom): (c: ContentType)
    ensures c != ContentUnset
  {
    if b.content != ContentUnset then b.content
    else if b.backupRef == Some(BackupKind) then LogicalContent
    else if b.backupRef == Some(PhysicalBackupKind) || b.snapshot then PhysicalContent
    else LogicalContent
  }

  /** The source with its type settled, and a volume to stage what comes from S3. */
  function WithDefaults(b: BootstrapFrom): BootstrapFrom {
    b.(content := DefaultContent(b), volume := b.volume || (DefaultContent(b) == PhysicalContent && b.s3))
  }

  /** The object in memory, as the Spec phase changes it. */
  class Bootstrap {
    var from: BootstrapFrom

    constructor (from: BootstrapFrom)
      ensures this.from == from
    {
      this.from := from;
    }

    /** BootstrapFrom.Validate, check by check. */
    method Validate() returns (ok: bool)
      ensures ok <==> Valid(from)
    {
      if from.backupRef.None? && !from.snapshot && !from.s3 && !from.volume {
        return false;
      }
      if from.content == OtherContent {
        return false;
      }
      if from.backupRef.Some? {
        var kind := from.backupRef.value;
        if kind == KindUnset || kind == BackupKind {
          if from.content != ContentUnset && from.content != LogicalContent {
            return false;
          }
        } else if kind == PhysicalBackupKind {
          if from.content != ContentUnset && from.content != PhysicalContent {
            return false;
          }
        } else {
          return false;
        }
      }
      if from.snapshot {
        if from.content != ContentUnset && from.content != PhysicalContent {
          return false;
        }
        if from.s3 || from.volume || from.restoreJob {
          return false;
        }
      }
      return true;
    }

    /** BootstrapFrom.SetDefaults. */
    method SetDefaults()
      modifies this
      ensures from == WithDefaults(old(from))
      ensures var b := old(from);
              if b.content != ContentUnset then from.content == b.content
              else if b.backupRef == Some(BackupKind) then from.content == LogicalContent
              else if b.backupRef == Some(PhysicalBackupKind) || b.snapshot then from.content == PhysicalContent
              else from.content == LogicalContent
      ensures from == old(from).(content := from.content, volume := old(from.volume) || (from.content == PhysicalContent && from.s3))
    {
      if from.backupRef.Some? && from.content == ContentUnset {
        match from.backupRef.value {
          case BackupKind => from := from.(content := LogicalContent);
          case PhysicalBackupKind => from := from.(content := PhysicalContent);
          case _ =>
        }
      }
      if from.snapshot && from.content == ContentUnset {
        from := from.(content := PhysicalContent);
      }
      if from.content == ContentUnset {
        from := from.(content := LogicalContent);
      }
      if from.content == PhysicalContent && from.s3 {
        from := from.(volume := true);
      }
    }

    /** setSpecDefaults. `backup` is the PhysicalBackup the reference resolves to: a snapshot or not, with S3 or not;
        None when it is not found or has no volume. The content type is settled by the first SetDefaults and then stays. */
    method SetSpecDefaults(backup: Option<(bool, bool)>) returns (ok: bool)
      modifies this
      ensures var b := WithDefaults(old(from));
              if b.backupRef != Some(PhysicalBackupKind) || b.volume || b.snapshot then ok && from == b
              else if backup.None? then !ok && from == b
              else
                && ok && from.snapshot == backup.value.0 && from.s3 == (if backup.value.0 then b.s3 else backup.value.1)
                && from.volume == (!backup.value.0 || (b.s3 && from.content == PhysicalContent))
                && from == b.(snapshot := from.snapshot, s3 := from.s3, volume := from.volume)
      ensures var was := old(from);
              was.backupRef == Some(PhysicalBackupKind) && !was.volume && !was.snapshot && !was.s3 && backup.Some? ==>
                && from.snapshot == backup.value.0 && from.volume == !backup.value.0
                && from.s3 == (!backup.value.0 && backup.value.1)
      ensures from.content == DefaultContent(old(from))
      ensures from == old(from).(content := from.content, volume := from.volume, snapshot := from.snapshot, s3 := from.s3)
      ensures ok && from.backupRef == Some(PhysicalBackupKind) ==> from.volume || from.snapshot
      ensures !ok ==> backup.None?
    {
      SetDefaults();
      if from.volume || from.snapshot {
        return true;
      }
      if from.backupRef != Some(PhysicalBackupKind) {
        return true;
      }
      if backup.None? {
        return false;
      }
      if backup.value.0 {
        from := from.(snapshot := true);
      } else {
        from := from.(volume := true, s3 := backup.value.1);
      }
      SetDefaults();
      return true;
    }
  }

  /** Defaulting settles in one go; it keeps a valid source valid exactly unless a reference that is not to a
      PhysicalBackup and a snapshot are both given, which validation lets through as long as no type is. */
  lemma BootstrapDefaults(b: BootstrapFrom)
    requires Valid(b)
    ensures WithDefaults(WithDefaults(b)) == WithDefaults(b)
    ensures Valid(WithDefaults(b)) <==> !(b.snapshot && b.backupRef.Some? && b.backupRef != Some(PhysicalBackupKind))
  {
  }
}
