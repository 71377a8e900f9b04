/** The part of the redux template's root state that the containers read:
    the three slices of this model. The router and login-form slices are not
    part of this model. */
module RootState {
  import ItemsReducer
  import UserReducer

  datatype RootState = RootState(count: int, items: ItemsReducer.ItemsState, user: UserReducer.UserState)
}
