/** The nullable references of the component (CurrentWeapon, _pendingWeapon,
    _visibleWeapon, GetWeapon's result) are modelled as optional slot indices. */
module Wrappers {

  datatype Option<+T> = None | Some(value: T)
}
