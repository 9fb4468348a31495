/**
 * `AudioDeviceSelector`: picking the input device from the list `sd.query_devices()`
 * returns, the record kept of it, and the device listing with its selection marker.
 * The device query is an input.
 */
module DeviceSelector {
  import opened Wrappers

  /** One entry of the device list. */
  datatype DeviceInfo = DeviceInfo(index: int, name: string, maxInputChannels: int, defaultSampleRate: real)

  /** What querying the host gives: the list and the default input index, or an error. */
  datatype Query = Devices(devices: seq<DeviceInfo>, defaultInput: int) | QueryFailed

  /** `AudioDeviceNotFound` ends the program with exit status 1; anything else is re-raised. */
  datatype SelectError = NotFound | Raised

  const ExitStatusNotFound: int := 1

  /** `not target_id`: `None` and 0 both mean "the default device". */
  predicate Falsy(target: Option<int>) {
    target.None? || target.value == 0
  }

  /** The position of the first device satisfying `p`, or `|ds|`. */
  function FirstMatch(ds: seq<DeviceInfo>, p: DeviceInfo -> bool): (n: nat)
    ensures n <= |ds|
    ensures n < |ds| ==> p(ds[n])
    ensures forall i :: 0 <= i < n ==> !p(ds[i])
    decreases |ds|
  {
    if ds == [] then 0 else if p(ds[0]) then 0 else 1 + FirstMatch(ds[1..], p)
  }

  predicate CanRecord(d: DeviceInfo) {
    d.maxInputChannels > 0
  }

  /**
   * `_get_audio_device`. Without a target, the first device whose index is the default
   * input; when there is none `next` raises `StopIteration`, which is re-raised. With a
   * target, the first device with that index and at least one input channel, else exit 1.
   */
  function GetAudioDevice(q: Query, target: Option<int>): (r: Result<DeviceInfo, SelectError>)
    ensures q.QueryFailed? ==> r == Failure(Raised)
    ensures q.Devices? && Falsy(target) ==>
              (r.Success? <==> exists i :: 0 <= i < |q.devices| && q.devices[i].index == q.defaultInput) &&
              (r.Success? ==> r.value in q.devices && r.value.index == q.defaultInput) &&
              (r.Failure? ==> r.error == Raised)
    ensures q.Devices? && !Falsy(target) ==>
              (r.Success? <==> exists i :: 0 <= i < |q.devices| && q.devices[i].index == target.value && CanRecord(q.devices[i])) &&
              (r.Success? ==> r.value in q.devices && r.value.index == target.value && CanRecord(r.value)) &&
              (r.Failure? ==> r.error == NotFound)
  {
    match q
    case QueryFailed => Failure(Raised)
    case Devices(ds, def) =>
      if Falsy(target) then
        var n := FirstMatch(ds, (d: DeviceInfo) => d.index == def);
        if n < |ds| then Success(ds[n]) else Failure(Raised)
      else
        var t := target.value;
        var n := FirstMatch(ds, (d: DeviceInfo) => d.index == t && CanRecord(d));
        if n < |ds| then Success(ds[n]) else Failure(NotFound)
  }

  /** What the selector keeps: `id`, `name`, `native_rate`, `is_default`. */
  datatype Selected = Selected(id: int, name: string, nativeRate: real, isDefault: bool)

  function Select(q: Query, target: Option<int>): (r: Result<Selected, SelectError>)
    ensures r.Success? <==> GetAudioDevice(q, target).Success?
    ensures r.Success? ==>
              var d := GetAudioDevice(q, target).value;
              r.value.id == d.index && r.value.name == d.name && r.value.nativeRate == d.defaultSampleRate &&
              (r.value.isDefault <==> d.name == "default")
    ensures r.Failure? ==> r.error == GetAudioDevice(q, target).error
  {
    var d :- GetAudioDevice(q, target);
    Success(Selected(d.index, d.name, d.defaultSampleRate, d.name == "default"))
  }

  /** Index 0 cannot be asked for: it selects the default input, whatever device 0 is. */
  lemma ZeroMeansDefault(q: Query)
    requires q.Devices?
    ensures Select(q, Some(0)) == Select(q, None)
  {
  }

  // ---------------------------------------------------------------- listing

  /** One logged line of `show_audio_devices`: marker, index, rate, name. */
  datatype ListingLine = ListingLine(marker: char, index: int, rate: real, name: string)

  function ListingOf(ds: seq<DeviceInfo>, selected: Option<int>): (r: seq<ListingLine>)
    ensures |r| <= |ds|
    decreases |ds|
  {
    if ds == [] then []
    else
      var d := ds[0];
      var rest := ListingOf(ds[1..], selected);
      if CanRecord(d) then
        [ListingLine(if selected == Some(d.index) then '>' else ' ', d.index, d.defaultSampleRate, d.name)] + rest
      else rest
  }

  /** The input-capable devices, in order. */
  function InputDevices(ds: seq<DeviceInfo>): (r: seq<DeviceInfo>)
    ensures forall i :: 0 <= i < |r| ==> CanRecord(r[i]) && r[i] in ds
    ensures forall i :: 0 <= i < |ds| && CanRecord(ds[i]) ==> ds[i] in r
    decreases |ds|
  {
    if ds == [] then [] else (if CanRecord(ds[0]) then [ds[0]] else []) + InputDevices(ds[1..])
  }

  /**
   * The listing: one line per input-capable device, in order, marked '>' exactly when it
   * is the selected index; the warning is logged when there is none. A failing query is
   * logged and lists nothing.
   */
  function ShowAudioDevices(q: Query, selected: Option<int>): (r: (seq<ListingLine>, bool))
    ensures q.QueryFailed? ==> r == ([], false)
    ensures q.Devices? ==> r.0 == ListingOf(q.devices, selected) && (r.1 <==> r.0 == [])
  {
    match q
    case QueryFailed => ([], false)
    case Devices(ds, _) =>
      var lines := ListingOf(ds, selected);
      (lines, lines == [])
  }

  /** A listing line shows device `d`, marked '>' exactly when `d` is the selected index. */
  predicate LineShows(l: ListingLine, d: DeviceInfo, selected: Option<int>) {
    l.index == d.index && l.name == d.name && l.rate == d.defaultSampleRate &&
    (l.marker == '>' <==> selected == Some(d.index)) && (l.marker == '>' || l.marker == ' ')
  }

  /** Each listing line is an input device, in order, with '>' exactly on the selected index. */
  lemma {:induction false} ListingMatchesInputs(ds: seq<DeviceInfo>, selected: Option<int>)
    ensures |ListingOf(ds, selected)| == |InputDevices(ds)|
    ensures forall i :: 0 <= i < |ListingOf(ds, selected)| ==>
              LineShows(ListingOf(ds, selected)[i], InputDevices(ds)[i], selected)
    decreases |ds|
  {
    if ds != [] {
      ListingMatchesInputs(ds[1..], selected);
      var rest, irest := ListingOf(ds[1..], selected), InputDevices(ds[1..]);
      var L, I := ListingOf(ds, selected), InputDevices(ds);
      if CanRecord(ds[0]) {
        var d := ds[0];
        var line := ListingLine(if selected == Some(d.index) then '>' else ' ', d.index, d.defaultSampleRate, d.name);
        assert L == [line] + rest;
        assert I == [d] + irest;
        assert LineShows(line, d, selected);
        forall i | 0 <= i < |L|
          ensures LineShows(L[i], I[i], selected)
        {
          if i > 0 {
            assert L[i] == rest[i - 1];
            assert I[i] == irest[i - 1];
          }
        }
      } else {
        assert L == rest;
        assert I == irest;
      }
    }
  }

  /** The warning is logged exactly when no device can record. */
  lemma {:induction false} WarnsIffNoInputs(ds: seq<DeviceInfo>, def: int, selected: Option<int>)
    ensures ShowAudioDevices(Devices(ds, def), selected).1 <==> forall i :: 0 <= i < |ds| ==> !CanRecord(ds[i])
  {
    ListingMatchesInputs(ds, selected);
    if ShowAudioDevices(Devices(ds, def), selected).1 {
      assert |InputDevices(ds)| == 0;
    } else {
      assert InputDevices(ds)[0] in ds;
    }
  }
}
